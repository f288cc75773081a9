/** The progress time estimator of the batch resize: a small stateful object fed with
    clock readings (milliseconds since the epoch, passed in by the caller), the estimate
    it derives from them, and the two duration formatters used by the progress display. */
module TimeEstimation {
  import opened Text

  /** What `getEstimate` reports; all values are milliseconds, the completion time is
      an absolute clock reading. */
  datatype TimeEstimate = TimeEstimate(
    estimatedTotalTime: real,
    estimatedRemainingTime: real,
    elapsedTime: real,
    averageTimePerItem: real,
    estimatedCompletionTime: real)

  /** The initial guess, in milliseconds per item, before anything has been timed. */
  const DefaultItemTime: real := 2000.0

  /** How many of the most recent durations the average looks at. */
  const RecentWindow: nat := 5

  function Sum(xs: seq<int>): int {
    if xs == [] then 0 else Sum(xs[..|xs| - 1]) + xs[|xs| - 1]
  }

  lemma SumAppend(xs: seq<int>, x: int)
    ensures Sum(xs + [x]) == Sum(xs) + x
  {
    assert (xs + [x])[..|xs|] == xs;
  }

  /** `slice(-5)`: the last five durations, or all of them when there are fewer. */
  function RecentItems(times: seq<int>): (recent: seq<int>)
    ensures |recent| == if |times| < RecentWindow then |times| else RecentWindow
    ensures recent == times[|times| - |recent|..]
  {
    if |times| <= RecentWindow then times else times[|times| - RecentWindow..]
  }

  function Mean(xs: seq<int>): real
    requires xs != []
  {
    Sum(xs) as real / |xs| as real
  }

  /** The average duration per item: the mean of the recent durations when any item has
      been timed, else the elapsed time spread over the items started, else the default. */
  function AverageTimePerItem(itemTimes: seq<int>, currentItem: nat, elapsed: int): real {
    if |itemTimes| > 0 then Mean(RecentItems(itemTimes))
    else if currentItem > 0 then elapsed as real / currentItem as real
    else DefaultItemTime
  }

  /** Bounds on every element bound the sum. */
  lemma {:induction false} SumBounds(xs: seq<int>, lo: int, hi: int)
    requires forall k :: 0 <= k < |xs| ==> lo <= xs[k] <= hi
    ensures |xs| * lo <= Sum(xs) <= |xs| * hi
  {
    if xs != [] {
      var n := |xs| - 1;
      SumBounds(xs[..n], lo, hi);
      assert n * lo <= Sum(xs[..n]) <= n * hi;
      assert lo <= xs[n] <= hi;
      assert |xs| * lo == n * lo + lo && |xs| * hi == n * hi + hi;
    }
  }

  /** A quotient by a positive number keeps the bounds a product gave. */
  lemma QuotientBounds(total: real, n: real, lo: real, hi: real)
    requires n > 0.0 && n * lo <= total <= n * hi
    ensures lo <= total / n <= hi
  {
    var q := total / n;
    assert total == n * q;
    assert n * (q - lo) >= 0.0 && n * (hi - q) >= 0.0;
  }

  /** The mean lies between any lower and upper bound of the elements. */
  lemma MeanBounds(xs: seq<int>, lo: int, hi: int)
    requires xs != []
    requires forall k :: 0 <= k < |xs| ==> lo <= xs[k] <= hi
    ensures lo as real <= Mean(xs) <= hi as real
  {
    SumBounds(xs, lo, hi);
    QuotientBounds(Sum(xs) as real, |xs| as real, lo as real, hi as real);
  }

  /** Once items have been timed, the average lies between the shortest and the longest
      of the recent durations. */
  lemma AverageWithinRecentDurations(itemTimes: seq<int>, currentItem: nat, elapsed: int,
                                     lo: int, hi: int)
    requires itemTimes != []
    requires forall x :: x in RecentItems(itemTimes) ==> lo <= x <= hi
    ensures lo as real <= AverageTimePerItem(itemTimes, currentItem, elapsed) <= hi as real
  {
    var recent := RecentItems(itemTimes);
    forall k | 0 <= k < |recent|
      ensures lo <= recent[k] <= hi
    {
      assert recent[k] in recent;
    }
    MeanBounds(recent, lo, hi);
  }

  /** The estimate for a state started at `startTime` with durations `itemTimes`, read
      at `now`. The remaining time is the remaining item count times the average, the
      total is the elapsed time plus the remaining time, and the completion time is
      `now` plus the remaining time. */
  function Estimate(startTime: int, itemTimes: seq<int>, currentItem: nat, totalItems: nat,
                    now: int): TimeEstimate
  {
    var elapsedTime := now - startTime;
    var averageTimePerItem := AverageTimePerItem(itemTimes, currentItem, elapsedTime);
    var remainingItems := totalItems - currentItem;
    var estimatedRemainingTime := remainingItems as real * averageTimePerItem;
    TimeEstimate(elapsedTime as real + estimatedRemainingTime, estimatedRemainingTime,
                 elapsedTime as real, averageTimePerItem, now as real + estimatedRemainingTime)
  }

  /** The estimator's state. `itemTimes` holds one duration per completed item, each
      measured from the previous completion (or from the start). */
  class TimeEstimator {
    var startTime: int
    var itemTimes: seq<int>
    var lastItemTime: int

    /** The durations add up to the time between the start and the last completion. */
    ghost predicate Valid()
      reads this
    {
      Sum(itemTimes) == lastItemTime - startTime
    }

    constructor()
      ensures startTime == 0 && itemTimes == [] && lastItemTime == 0
      ensures Valid()
    {
      startTime, itemTimes, lastItemTime := 0, [], 0;
    }

    /** `start()`, with `now` the clock reading. */
    method Start(now: int)
      modifies this
      ensures startTime == now && lastItemTime == now && itemTimes == []
      ensures Valid()
    {
      startTime := now;
      lastItemTime := startTime;
      itemTimes := [];
    }

    /** `recordItemCompletion()`, with `now` the clock reading: one more duration, the
        time since the previous completion. */
    method RecordItemCompletion(now: int)
      requires Valid()
      modifies this
      ensures itemTimes == old(itemTimes) + [now - old(lastItemTime)]
      ensures lastItemTime == now && startTime == old(startTime)
      ensures Valid()
    {
      var itemTime := now - lastItemTime;
      SumAppend(itemTimes, itemTime);
      itemTimes := itemTimes + [itemTime];
      lastItemTime := now;
    }

    /** `getEstimate(currentItem, totalItems)`, with `now` the clock reading. It only
        reads the state. */
    function GetEstimate(currentItem: nat, totalItems: nat, now: int): (e: TimeEstimate)
      reads this
      ensures e == Estimate(startTime, itemTimes, currentItem, totalItems, now)
    {
      Estimate(startTime, itemTimes, currentItem, totalItems, now)
    }

    /** `reset()`. */
    method Reset()
      modifies this
      ensures startTime == 0 && itemTimes == [] && lastItemTime == 0
      ensures Valid()
    {
      startTime := 0;
      itemTimes := [];
      lastItemTime := 0;
    }
  }

  /** At the last item nothing remains: the total is the elapsed time and the
      completion time is now. */
  lemma EstimateAtEnd(startTime: int, itemTimes: seq<int>, totalItems: nat, now: int)
    ensures var e := Estimate(startTime, itemTimes, totalItems, totalItems, now);
      e.estimatedRemainingTime == 0.0 && e.estimatedTotalTime == e.elapsedTime &&
      e.estimatedCompletionTime == now as real
  {
  }

  /** With at most five items timed, the average is the whole time from the start to
      the last completion spread evenly over them. */
  lemma AverageOfFewItems(itemTimes: seq<int>, startTime: int, lastItemTime: int,
                          currentItem: nat, elapsed: int)
    requires Sum(itemTimes) == lastItemTime - startTime
    requires 0 < |itemTimes| <= RecentWindow
    ensures AverageTimePerItem(itemTimes, currentItem, elapsed) ==
            (lastItemTime - startTime) as real / |itemTimes| as real
  {
  }

  /** With more than five items timed, only the last five count: the older durations
      have no influence on the average. */
  lemma OldDurationsIgnored(older: seq<int>, recent: seq<int>, currentItem: nat, elapsed: int)
    requires |recent| == RecentWindow
    ensures AverageTimePerItem(older + recent, currentItem, elapsed) ==
            AverageTimePerItem(recent, currentItem, elapsed)
  {
    assert (older + recent)[|older|..] == recent;
  }

  // ---------------------------------------------------------------- formatting

  /** `Math.floor(milliseconds / 1000)`. */
  function WholeSeconds(ms: real): int {
    (ms / 1000.0).Floor
  }

  lemma WholeSecondsOf(ms: real, s: int)
    requires s as real * 1000.0 <= ms < (s + 1) as real * 1000.0
    ensures WholeSeconds(ms) == s
  {
  }

  /** `formatTime`: "< 1s" under one second, else hours and minutes, minutes and
      seconds, or seconds, whichever is the largest unit that is non-zero. */
  function FormatTime(ms: real): (r: string)
    ensures ms < 1000.0 ==> r == "< 1s"
  {
    if ms < 1000.0 then "< 1s"
    else
      var seconds := WholeSeconds(ms);
      var minutes := seconds / 60;
      var hours := minutes / 60;
      if hours > 0 then NatToString(hours) + "h " + NatToString(minutes % 60) + "m"
      else if minutes > 0 then NatToString(minutes) + "m " + NatToString(seconds % 60) + "s"
      else NatToString(seconds) + "s"
  }

  /** From `h` hours and `m` minutes on (`h` at least one), up to the next minute, the
      text is "{h}h {m}m". */
  lemma FormatTimeHours(ms: real, h: nat, m: nat)
    requires h >= 1 && m < 60
    requires (h * 3600 + m * 60) as real * 1000.0 <= ms < (h * 3600 + m * 60 + 60) as real * 1000.0
    ensures FormatTime(ms) == NatToString(h) + "h " + NatToString(m) + "m"
  {
    var seconds := WholeSeconds(ms);
    assert h * 3600 + m * 60 <= seconds < h * 3600 + m * 60 + 60;
    assert seconds / 60 == h * 60 + m;
    assert (h * 60 + m) / 60 == h && (h * 60 + m) % 60 == m;
  }

  /** Under an hour, from `m` minutes and `s` seconds on (`m` at least one), up to the
      next second, the text is "{m}m {s}s". */
  lemma FormatTimeMinutes(ms: real, m: nat, s: nat)
    requires 1 <= m < 60 && s < 60
    requires (m * 60 + s) as real * 1000.0 <= ms < (m * 60 + s + 1) as real * 1000.0
    ensures FormatTime(ms) == NatToString(m) + "m " + NatToString(s) + "s"
  {
    WholeSecondsOf(ms, m * 60 + s);
    assert (m * 60 + s) / 60 == m && (m * 60 + s) % 60 == s;
  }

  /** Under a minute, from `s` seconds on (`s` at least one), the text is "{s}s". */
  lemma FormatTimeSeconds(ms: real, s: nat)
    requires 1 <= s < 60
    requires s as real * 1000.0 <= ms < (s + 1) as real * 1000.0
    ensures FormatTime(ms) == NatToString(s) + "s"
  {
    WholeSecondsOf(ms, s);
  }

  /** `formatTimeShort`: like `formatTime`, but minutes are never folded into hours. */
  function FormatTimeShort(ms: real): (r: string)
    ensures ms < 1000.0 ==> r == "< 1s"
  {
    if ms < 1000.0 then "< 1s"
    else
      var seconds := WholeSeconds(ms);
      var minutes := seconds / 60;
      if minutes > 0 then NatToString(minutes) + "m " + NatToString(seconds % 60) + "s"
      else NatToString(seconds) + "s"
  }

  /** From `m` minutes and `s` seconds on (`m` at least one, any size), up to the next
      second, the text is "{m}m {s}s": the minute count is never split into hours. */
  lemma FormatTimeShortMinutes(ms: real, m: nat, s: nat)
    requires 1 <= m && s < 60
    requires (m * 60 + s) as real * 1000.0 <= ms < (m * 60 + s + 1) as real * 1000.0
    ensures FormatTimeShort(ms) == NatToString(m) + "m " + NatToString(s) + "s"
  {
    WholeSecondsOf(ms, m * 60 + s);
    assert (m * 60 + s) / 60 == m && (m * 60 + s) % 60 == s;
  }

  /** Under a minute, from `s` seconds on (`s` at least one), the short text is "{s}s". */
  lemma FormatTimeShortSeconds(ms: real, s: nat)
    requires 1 <= s < 60
    requires s as real * 1000.0 <= ms < (s + 1) as real * 1000.0
    ensures FormatTimeShort(ms) == NatToString(s) + "s"
  {
    WholeSecondsOf(ms, s);
  }

  /** The short form never shows an hour unit. */
  lemma {:induction false} FormatTimeShortHasNoHours(ms: real)
    ensures 'h' !in FormatTimeShort(ms)
  {
    if ms >= 1000.0 {
      var seconds := WholeSeconds(ms);
      NoLetterInDigits(NatToString(seconds / 60), 'h');
      NoLetterInDigits(NatToString(seconds % 60), 'h');
      NoLetterInDigits(NatToString(seconds), 'h');
    }
  }

  /** The long form shows an hour unit exactly from one hour on. */
  lemma {:induction false} FormatTimeHourUnit(ms: real)
    ensures 'h' in FormatTime(ms) <==> ms >= 3600000.0
  {
    if ms >= 1000.0 {
      var seconds := WholeSeconds(ms);
      var minutes := seconds / 60;
      NoLetterInDigits(NatToString(minutes / 60), 'h');
      NoLetterInDigits(NatToString(minutes % 60), 'h');
      NoLetterInDigits(NatToString(minutes), 'h');
      NoLetterInDigits(NatToString(seconds % 60), 'h');
      NoLetterInDigits(NatToString(seconds), 'h');
      if ms >= 3600000.0 {
        assert seconds >= 3600;
        var r := NatToString(minutes / 60) + "h " + NatToString(minutes % 60) + "m";
        assert r[|NatToString(minutes / 60)|] == 'h';
      } else {
        assert seconds < 3600;
      }
    }
  }

  lemma NoLetterInDigits(s: string, c: char)
    requires AllDigits(s) && !IsDigit(c)
    ensures c !in s
  {
  }
}
