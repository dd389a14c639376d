/**
 * The `chartData` computation of src/cards/GraphCard.tsx: delta smoothing of the history,
 * then linear interpolation onto a 20-minute grid.
 */
module GraphResample {
  import opened JsText
  import opened GraphTime

  /** A history point: timestamp in milliseconds and numeric value. */
  datatype Sample = Sample(timestamp: int, value: real)

  function Abs(x: real): real
  {
    if x < 0.0 then -x else x
  }

  // ---------------------------------------------------------------------------
  // smoothing

  /** Smoothing runs only for a configured, positive delta and a non-empty history. */
  predicate SmoothingOn(delta: Option<real>, n: nat)
  {
    delta.Some? && delta.value > 0.0 && n > 0
  }

  predicate StrictlyIncreasing(idx: seq<nat>)
  {
    forall a, b :: 0 <= a < b < |idx| ==> idx[a] < idx[b]
  }

  predicate IndicesIn(idx: seq<nat>, n: nat)
  {
    forall k :: 0 <= k < |idx| ==> idx[k] < n
  }

  /** The samples at the given indices, in that order. */
  function Pick(data: seq<Sample>, idx: seq<nat>): (out: seq<Sample>)
    requires IndicesIn(idx, |data|)
    ensures |out| == |idx|
    ensures forall k :: 0 <= k < |idx| ==> out[k] == data[idx[k]]
  {
    seq(|idx|, k requires 0 <= k < |idx| => data[idx[k]])
  }

  /** Every sample strictly between indices `from` and `to` differs from the one at `from`
      by less than `delta`: the smoothing skipped them. */
  predicate SkippedBetween(data: seq<Sample>, delta: real, from: nat, to: nat)
    requires from < |data| && to <= |data|
  {
    forall j :: from < j < to ==> Abs(data[j].value - data[from].value) < delta
  }

  /** The sample at `to` differs from the one at `from` by at least `delta`. */
  predicate FarEnough(data: seq<Sample>, delta: real, from: nat, to: nat)
    requires from < |data| && to < |data|
  {
    Abs(data[to].value - data[from].value) >= delta
  }

  lemma PickAppend(data: seq<Sample>, idx: seq<nat>, i: nat)
    requires IndicesIn(idx, |data|) && i < |data|
    ensures IndicesIn(idx + [i], |data|)
    ensures Pick(data, idx + [i]) == Pick(data, idx) + [data[i]]
  {
    assert forall k :: 0 <= k < |idx| ==> (idx + [i])[k] == idx[k];
  }

  /** Which samples the smoothing keeps: the first; every later sample that differs by at
      least `delta` from the previously kept one (each sample skipped in between differs by
      less); and the last sample, whether or not it differs enough. */
  predicate KeptBySmoothing(data: seq<Sample>, delta: real, idx: seq<nat>)
  {
    |idx| >= 1 && idx[0] == 0 && StrictlyIncreasing(idx) && IndicesIn(idx, |data|) &&
    idx[|idx| - 1] == |data| - 1 &&
    (forall k :: 0 < k < |idx| - 1 ==> FarEnough(data, delta, idx[k - 1], idx[k])) &&
    (forall k :: 0 < k < |idx| ==> SkippedBetween(data, delta, idx[k - 1], idx[k]))
  }

  /** A strictly increasing list of indices below `n` has at most `n` entries. */
  lemma {:induction false} IncreasingIndicesBound(idx: seq<nat>, n: nat)
    requires StrictlyIncreasing(idx) && IndicesIn(idx, n)
    ensures |idx| <= n
    decreases |idx|
  {
    if |idx| > 0 {
      var init := idx[..|idx| - 1];
      var top := idx[|idx| - 1];
      assert StrictlyIncreasing(init) && IndicesIn(init, top);
      IncreasingIndicesBound(init, top);
    }
  }

  /** What the smoothing loop has established after looking at the samples before `i`:
      `idx` satisfies KeptBySmoothing for that prefix, except that its last entry need not be
      the last sample, every sample after it so far having been skipped. */
  predicate KeptSoFar(data: seq<Sample>, delta: real, idx: seq<nat>, i: nat)
  {
    i <= |data| && |idx| >= 1 && idx[0] == 0 && StrictlyIncreasing(idx) && IndicesIn(idx, i) &&
    (forall k :: 0 < k < |idx| ==> FarEnough(data, delta, idx[k - 1], idx[k])) &&
    (forall k :: 0 < k < |idx| ==> SkippedBetween(data, delta, idx[k - 1], idx[k])) &&
    SkippedBetween(data, delta, idx[|idx| - 1], i)
  }

  lemma KeepStep(data: seq<Sample>, delta: real, idx: seq<nat>, i: nat)
    requires KeptSoFar(data, delta, idx, i) && i < |data|
    requires FarEnough(data, delta, idx[|idx| - 1], i)
    ensures KeptSoFar(data, delta, idx + [i], i + 1)
  {
    var idx' := idx + [i];
    assert forall k :: 0 <= k < |idx| ==> idx'[k] == idx[k];
  }

  lemma SkipStep(data: seq<Sample>, delta: real, idx: seq<nat>, i: nat)
    requires KeptSoFar(data, delta, idx, i) && i < |data|
    requires !FarEnough(data, delta, idx[|idx| - 1], i)
    ensures KeptSoFar(data, delta, idx, i + 1)
  {
  }

  /** Once every sample has been looked at, appending the last sample unless it is already
      the last kept one gives the smoothing's final index list. */
  lemma FinishSmoothing(data: seq<Sample>, delta: real, idx: seq<nat>)
    requires |data| > 0 && KeptSoFar(data, delta, idx, |data|)
    ensures idx[|idx| - 1] == |data| - 1 ==> KeptBySmoothing(data, delta, idx)
    ensures idx[|idx| - 1] != |data| - 1 ==> KeptBySmoothing(data, delta, idx + [|data| - 1])
  {
    if idx[|idx| - 1] != |data| - 1 {
      var idx' := idx + [|data| - 1];
      assert forall k :: 0 <= k < |idx| ==> idx'[k] == idx[k];
    }
  }

  /** The smoothing loop of `chartData`. Kept samples are tracked by index, which is what the
      source's identity check `smoothed[last] !== historyData[last]` decides for a history of
      distinct point objects. */
  method Smooth(data: seq<Sample>, delta: Option<real>) returns (out: seq<Sample>, ghost idx: seq<nat>)
    ensures !SmoothingOn(delta, |data|) ==> out == data
    ensures SmoothingOn(delta, |data|) ==>
      KeptBySmoothing(data, delta.value, idx) && out == Pick(data, idx)
    ensures SmoothingOn(delta, |data|) ==> 1 <= |out| <= |data|
    ensures SmoothingOn(delta, |data|) ==> out[0] == data[0] && out[|out| - 1] == data[|data| - 1]
  {
    if !(delta.Some? && delta.value > 0.0 && |data| > 0) {
      return data, [];
    }
    var d := delta.value;
    var lastKept;
    out, idx, lastKept := SmoothLoop(data, d);
    FinishSmoothing(data, d, idx);
    if lastKept != |data| - 1 {
      PickAppend(data, idx, |data| - 1);
      out := out + [data[|data| - 1]];
      idx := idx + [|data| - 1];
    }
    KeptEnds(data, d, idx);
  }

  /** The `for` loop of the smoothing: each sample after the first is kept when it differs by
      at least `delta` from the last kept one. */
  method SmoothLoop(data: seq<Sample>, d: real) returns (out: seq<Sample>, ghost idx: seq<nat>, lastKept: nat)
    requires |data| > 0
    ensures KeptSoFar(data, d, idx, |data|) && out == Pick(data, idx) && lastKept == idx[|idx| - 1]
  {
    out := [data[0]];
    idx := [0];
    lastKept := 0;
    for i := 1 to |data|
      invariant KeptSoFar(data, d, idx, i)
      invariant out == Pick(data, idx) && lastKept == idx[|idx| - 1]
    {
      var current := data[i];
      var previous := out[|out| - 1];
      if Abs(current.value - previous.value) >= d {
        KeepStep(data, d, idx, i);
        PickAppend(data, idx, i);
        out := out + [current];
        idx := idx + [i];
        lastKept := i;
      } else {
        SkipStep(data, d, idx, i);
      }
    }
  }

  /** The kept samples number between one and the history's length, and start and end with
      the history's first and last samples. */
  lemma KeptEnds(data: seq<Sample>, delta: real, idx: seq<nat>)
    requires KeptBySmoothing(data, delta, idx)
    ensures 1 <= |Pick(data, idx)| <= |data|
    ensures Pick(data, idx)[0] == data[0] && Pick(data, idx)[|idx| - 1] == data[|data| - 1]
  {
    IncreasingIndicesBound(idx, |data|);
  }

  // ---------------------------------------------------------------------------
  // interpolation

  /** The interpolated value at time `t` between `before` and `after`: `before`'s value when
      the two share a timestamp, else the point on the line through both. */
  function Lerp(before: Sample, after: Sample, t: int): real
  {
    if before.timestamp == after.timestamp then before.value
    else
      before.value + (after.value - before.value) *
        ((t - before.timestamp) as real / (after.timestamp - before.timestamp) as real)
  }

  /** Interpolation reproduces both end points. */
  lemma LerpEndpoints(before: Sample, after: Sample)
    ensures Lerp(before, after, before.timestamp) == before.value
    ensures before.timestamp != after.timestamp ==> Lerp(before, after, after.timestamp) == after.value
  {
    if before.timestamp != after.timestamp {
      var span := (after.timestamp - before.timestamp) as real;
      assert span / span == 1.0;
    }
  }

  /** Between the two timestamps, the interpolated value lies between the two values. */
  lemma LerpBetween(before: Sample, after: Sample, t: int)
    requires before.timestamp <= t <= after.timestamp
    ensures before.value <= after.value ==> before.value <= Lerp(before, after, t) <= after.value
    ensures after.value <= before.value ==> after.value <= Lerp(before, after, t) <= before.value
  {
    if before.timestamp != after.timestamp {
      var p := (t - before.timestamp) as real / (after.timestamp - before.timestamp) as real;
      Fraction((t - before.timestamp) as real, (after.timestamp - before.timestamp) as real);
      var dv := after.value - before.value;
      var m := dv * p;
      assert Lerp(before, after, t) == before.value + m;
      ScaleBetween(dv, p);
      if dv >= 0.0 {
        assert 0.0 <= m <= dv;
        assert before.value <= before.value + m <= after.value;
      } else {
        assert dv <= m <= 0.0;
        assert after.value <= before.value + m <= before.value;
      }
    }
  }

  /** A quotient of a part by a positive whole lies in [0, 1]. */
  lemma Fraction(part: real, whole: real)
    requires 0.0 <= part <= whole && whole > 0.0
    ensures 0.0 <= part / whole <= 1.0
  {
    assert part / whole * whole == part;
  }

  /** Scaling by a fraction in [0, 1] keeps a difference between zero and itself. */
  lemma ScaleBetween(dv: real, p: real)
    requires 0.0 <= p <= 1.0
    ensures dv >= 0.0 ==> 0.0 <= dv * p <= dv
    ensures dv <= 0.0 ==> dv <= dv * p <= 0.0
  {
    assert dv - dv * p == dv * (1.0 - p);
    if dv >= 0.0 {
      assert 0.0 <= dv * (1.0 - p);
    } else {
      assert dv * (1.0 - p) <= 0.0;
    }
  }

  /** `before = data[j]`, `after = data[j + 1]` is the pair the cursor settles on for time `t`:
      `j + 1` is the first index past 0 whose timestamp is not below `t`, so at most one `j`
      brackets a given time. */
  predicate Brackets(data: seq<Sample>, j: nat, t: int)
  {
    j + 1 < |data| && data[j + 1].timestamp >= t &&
    forall i :: 1 <= i <= j ==> data[i].timestamp < t
  }

  predicate SortedByTime(data: seq<Sample>)
  {
    forall a, b :: 0 <= a < b < |data| ==> data[a].timestamp <= data[b].timestamp
  }

  /** For a sorted history, a grid time at or after the first sample lies inside its
      bracketing pair, so the interpolated value lies between the pair's values. */
  lemma BracketedValueBetween(data: seq<Sample>, j: nat, t: int)
    requires SortedByTime(data) && Brackets(data, j, t) && data[0].timestamp <= t
    ensures data[j].timestamp <= t <= data[j + 1].timestamp
    ensures data[j].value <= data[j + 1].value ==> data[j].value <= Lerp(data[j], data[j + 1], t) <= data[j + 1].value
    ensures data[j + 1].value <= data[j].value ==> data[j + 1].value <= Lerp(data[j], data[j + 1], t) <= data[j].value
  {
    LerpBetween(data[j], data[j + 1], t);
  }

  /** The interpolation loop of `chartData`, for a history of at least two points. The grid
      starts at FirstGridTime of the first timestamp and steps by 20 minutes while it does
      not pass the last timestamp; `cursor` records `dataIndex` at each grid point. */
  method Interpolate(data: seq<Sample>) returns (out: seq<Sample>, ghost cursor: seq<nat>)
    requires |data| >= 2
    ensures |cursor| == |out|
    ensures forall k :: 0 <= k < |out| ==> out[k].timestamp == FirstGridTime(data[0].timestamp) + k * GridMs
    ensures forall k :: 0 <= k < |out| ==> out[k].timestamp <= data[|data| - 1].timestamp
    ensures FirstGridTime(data[0].timestamp) + |out| * GridMs > data[|data| - 1].timestamp
    ensures forall k :: 0 <= k < |out| ==>
      cursor[k] <= |data| - 2 && Brackets(data, cursor[k], out[k].timestamp) &&
      out[k].value == Lerp(data[cursor[k]], data[cursor[k] + 1], out[k].timestamp)
    ensures forall a, b :: 0 <= a < b < |out| ==> cursor[a] <= cursor[b]
  {
    var lastTimestamp := data[|data| - 1].timestamp;
    var first := FirstGridTime(data[0].timestamp);
    var currentTime := first;
    var dataIndex := 0;
    out := [];
    cursor := [];
    while currentTime <= lastTimestamp
      invariant currentTime == first + |out| * GridMs
      invariant 0 <= dataIndex <= |data| - 2
      invariant forall i :: 1 <= i <= dataIndex ==> data[i].timestamp < currentTime
      invariant GridSoFar(data, first, out, cursor, dataIndex)
      decreases lastTimestamp - currentTime
    {
      ghost var previousIndex := dataIndex;
      dataIndex := Advance(data, dataIndex, currentTime);
      var before := data[dataIndex];
      var after := data[dataIndex + 1];
      var value;
      if before.timestamp == after.timestamp {
        value := before.value;
      } else {
        var timeDiff := after.timestamp - before.timestamp;
        var valueDiff := after.value - before.value;
        var progress := (currentTime - before.timestamp) as real / timeDiff as real;
        value := before.value + valueDiff * progress;
      }
      GridStep(data, first, out, cursor, previousIndex, dataIndex, currentTime, value);
      out := out + [Sample(currentTime, value)];
      cursor := cursor + [dataIndex];
      currentTime := currentTime + GridMs;
    }
  }

  /** The inner `while` of the interpolation: moves the cursor forward past every sample
      before `t`, stopping at the pair that brackets `t`. */
  method Advance(data: seq<Sample>, start: nat, t: int) returns (j: nat)
    requires |data| >= 2 && start <= |data| - 2 && t <= data[|data| - 1].timestamp
    requires forall i :: 1 <= i <= start ==> data[i].timestamp < t
    ensures start <= j <= |data| - 2 && Brackets(data, j, t)
  {
    j := start;
    while j < |data| - 1 && data[j + 1].timestamp < t
      invariant start <= j <= |data| - 2
      invariant forall i :: 1 <= i <= j ==> data[i].timestamp < t
      decreases |data| - j
    {
      j := j + 1;
    }
  }

  /** What the interpolation loop has produced so far: grid points `first + k * GridMs` up
      to the last timestamp, each interpolated between the pair its cursor brackets, with
      cursors non-decreasing and at most `bound`. */
  predicate GridSoFar(data: seq<Sample>, first: int, out: seq<Sample>, cursor: seq<nat>, bound: nat)
    requires |data| >= 2
  {
    |cursor| == |out| &&
    (forall k :: 0 <= k < |out| ==>
      out[k].timestamp == first + k * GridMs && out[k].timestamp <= data[|data| - 1].timestamp) &&
    (forall k :: 0 <= k < |out| ==>
      cursor[k] <= bound && Brackets(data, cursor[k], out[k].timestamp) &&
      out[k].value == Lerp(data[cursor[k]], data[cursor[k] + 1], out[k].timestamp)) &&
    (forall a, b :: 0 <= a < b < |out| ==> cursor[a] <= cursor[b])
  }

  /** One grid point: appending the point at time `t` interpolated at cursor `j` keeps the
      loop's record valid, with the cursor bound raised to `j`. */
  lemma GridStep(data: seq<Sample>, first: int, out: seq<Sample>, cursor: seq<nat>, bound: nat, j: nat, t: int, v: real)
    requires |data| >= 2 && GridSoFar(data, first, out, cursor, bound) && bound <= j
    requires Brackets(data, j, t) && t == first + |out| * GridMs && t <= data[|data| - 1].timestamp
    requires v == Lerp(data[j], data[j + 1], t)
    ensures GridSoFar(data, first, out + [Sample(t, v)], cursor + [j], j)
  {
    var out' := out + [Sample(t, v)];
    var cursor' := cursor + [j];
    assert forall k :: 0 <= k < |out| ==> out'[k] == out[k] && cursor'[k] == cursor[k];
  }

  /** Two samples inside one 20-minute window, the first past the window's first minute,
      yield no grid point at all. */
  lemma NoGridPointInsideWindow(t0: int, t1: int)
    requires t0 % GridMs >= MinuteMs && t0 <= t1 < t0 - t0 % GridMs + GridMs
    ensures FirstGridTime(t0) > t1
  {
    FirstGridTimeByWindow(t0);
  }

  /** `chartData` without the label formatting: smoothing, then interpolation when at least
      two points remain. Smoothing keeps the first and last samples, so the grid depends only
      on the history's first and last timestamps. Each plotted value is the interpolation, at
      its grid time, between the two samples of the smoothed series that bracket that time;
      the smoothed series is the history itself when smoothing is off, and otherwise the
      samples smoothing keeps. */
  method ChartData(history: seq<Sample>, delta: Option<real>)
    returns (points: seq<Sample>, ghost smoothed: seq<Sample>, ghost kept: seq<nat>, ghost cursor: seq<nat>)
    ensures |history| < 2 ==> points == history
    ensures |history| >= 2 ==>
      (forall k :: 0 <= k < |points| ==>
        points[k].timestamp == FirstGridTime(history[0].timestamp) + k * GridMs &&
        points[k].timestamp <= history[|history| - 1].timestamp) &&
      FirstGridTime(history[0].timestamp) + |points| * GridMs > history[|history| - 1].timestamp
    ensures !SmoothingOn(delta, |history|) ==> smoothed == history
    ensures SmoothingOn(delta, |history|) ==>
      KeptBySmoothing(history, delta.value, kept) && smoothed == Pick(history, kept)
    ensures |history| >= 2 ==> |cursor| == |points|
    ensures |history| >= 2 ==>
      forall k :: 0 <= k < |points| ==>
        cursor[k] <= |smoothed| - 2 && Brackets(smoothed, cursor[k], points[k].timestamp) &&
        points[k].value == Lerp(smoothed[cursor[k]], smoothed[cursor[k] + 1], points[k].timestamp)
  {
    var processed;
    processed, kept := Smooth(history, delta);
    smoothed := processed;
    if |processed| >= 2 {
      points, cursor := Interpolate(processed);
    } else {
      points := processed;
      cursor := [];
    }
  }
}
