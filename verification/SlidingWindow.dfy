/** Lists of hit times and the arithmetic of sliding windows, shared by the control plane's limiters.
Times are integers. */
module SlidingWindow {

  /** The hits after a cutoff, in their order. */
  function Filter(times: seq<int>, cutoff: int): seq<int> {
    if times == [] then []
    else
      var rest := Filter(times[..|times| - 1], cutoff);
      if times[|times| - 1] > cutoff then rest + [times[|times| - 1]] else rest
  }

  /** What the compaction loop leaves in the part of the array it scanned. */
  function Compacted(times: seq<int>, cutoff: int): (r: seq<int>)
    ensures |r| == |times|
  {
    FilterShorter(times, cutoff);
    Filter(times, cutoff) + times[|Filter(times, cutoff)|..]
  }

  lemma {:induction false} FilterShorter(times: seq<int>, cutoff: int)
    ensures |Filter(times, cutoff)| <= |times|
  {
    if times != [] {
      FilterShorter(times[..|times| - 1], cutoff);
    }
  }

  lemma {:induction false} FilterConcat(a: seq<int>, b: seq<int>, cutoff: int)
    ensures Filter(a + b, cutoff) == Filter(a, cutoff) + Filter(b, cutoff)
  {
    if b == [] {
      assert a + b == a;
    } else {
      var n := |b| - 1;
      FilterConcat(a, b[..n], cutoff);
      assert (a + b)[..|a + b| - 1] == a + b[..n];
    }
  }

  lemma FilterAppend(times: seq<int>, t: int, cutoff: int)
    ensures Filter(times + [t], cutoff) == Filter(times, cutoff) + if t > cutoff then [t] else []
  {
    assert (times + [t])[..|times|] == times;
  }

  /** A later cutoff sees through an earlier one. */
  lemma {:induction false} FilterTwice(times: seq<int>, early: int, late: int)
    requires early <= late
    ensures Filter(Filter(times, early), late) == Filter(times, late)
  {
    if times != [] {
      var init, last := times[..|times| - 1], times[|times| - 1];
      FilterTwice(init, early, late);
      FilterAppend(Filter(init, early), last, late);
    }
  }

  lemma {:induction false} FilterShrinks(times: seq<int>, early: int, late: int)
    requires early <= late
    ensures |Filter(times, late)| <= |Filter(times, early)|
  {
    if times != [] {
      FilterShrinks(times[..|times| - 1], early, late);
    }
  }

  // ----- windows

  predicate Sorted(times: seq<int>) {
    forall i, j | 0 <= i < j < |times| :: times[i] <= times[j]
  }

  /** The hits in the window that ends at `end`. */
  function InWindow(times: seq<int>, window: int, end: int): seq<int> {
    if times == [] then []
    else
      var rest := InWindow(times[..|times| - 1], window, end);
      if end - window < times[|times| - 1] <= end then rest + [times[|times| - 1]] else rest
  }

  /** No window of the given width holds more than `max` hits. */
  ghost predicate Bounded(times: seq<int>, window: int, max: int) {
    forall end :: |InWindow(times, window, end)| <= max
  }

  lemma {:induction false} WindowWithinFilter(times: seq<int>, window: int, end: int, cutoff: int)
    requires cutoff <= end - window
    ensures |InWindow(times, window, end)| <= |Filter(times, cutoff)|
  {
    if times != [] {
      WindowWithinFilter(times[..|times| - 1], window, end, cutoff);
    }
  }

  /** Admitting a hit when fewer than `max` lie in the window before it keeps every window bounded. */
  lemma BoundedStep(times: seq<int>, window: int, max: int, t: int)
    requires Bounded(times, window, max) && |Filter(times, t - window)| < max
    ensures Bounded(times + [t], window, max)
  {
    forall end ensures |InWindow(times + [t], window, end)| <= max {
      assert (times + [t])[..|times|] == times;
      if end - window < t <= end {
        WindowWithinFilter(times, window, end, t - window);
      }
    }
  }
}
