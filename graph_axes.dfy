/**
 * The axes of the history graph in src/cards/GraphCard.tsx: the 4-hourly x-axis ticks chosen
 * among the chart points, and the y-axis domain with 10 % padding.
 */
module GraphAxes {
  import opened JsText
  import opened GraphTime
  import opened GraphResample

  // ---------------------------------------------------------------------------
  // x-axis ticks

  /** A point's time label "HH:MM", as its (hour, minute) pair. */
  datatype Label = Label(hour: int, minute: int)

  function LabelOf(p: Sample): Label
  {
    Label(HourOf(p.timestamp), MinuteOf(p.timestamp))
  }

  /** A point can carry a tick when its hour is a multiple of 4 and its minute is below 10. */
  predicate Qualifies(p: Sample)
  {
    HourOf(p.timestamp) % 4 == 0 && MinuteOf(p.timestamp) < 10
  }

  predicate QualifiesFor(p: Sample, h: int)
  {
    Qualifies(p) && HourOf(p.timestamp) == h
  }

  /** Among the first `n` points, `i` is the one kept for hour `h`: it has the smallest minute
      of that hour's qualifying points, and is the first of them on a tie. */
  predicate ChosenAmong(points: seq<Sample>, n: nat, h: int, i: nat)
    requires n <= |points|
  {
    i < n && QualifiesFor(points[i], h) &&
    (forall j :: 0 <= j < n && QualifiesFor(points[j], h) ==> MinuteOf(points[i].timestamp) <= MinuteOf(points[j].timestamp)) &&
    (forall j :: 0 <= j < i && QualifiesFor(points[j], h) ==> MinuteOf(points[i].timestamp) < MinuteOf(points[j].timestamp))
  }

  /** The kept point of an hour stays kept when the next point is not a strictly earlier
      minute of that hour. */
  lemma ChosenKeep(points: seq<Sample>, n: nat, h: int, c: nat)
    requires n < |points| && ChosenAmong(points, n, h, c)
    requires !(QualifiesFor(points[n], h) && MinuteOf(points[n].timestamp) < MinuteOf(points[c].timestamp))
    ensures ChosenAmong(points, n + 1, h, c)
  {
  }

  /** A strictly earlier minute of the hour replaces the kept point. */
  lemma ChosenReplace(points: seq<Sample>, n: nat, h: int, c: nat)
    requires n < |points| && ChosenAmong(points, n, h, c)
    requires QualifiesFor(points[n], h) && MinuteOf(points[n].timestamp) < MinuteOf(points[c].timestamp)
    ensures ChosenAmong(points, n + 1, h, n)
  {
  }

  /** The first qualifying point of an hour is kept. */
  lemma ChosenFirst(points: seq<Sample>, n: nat, h: int)
    requires n < |points| && QualifiesFor(points[n], h)
    requires forall j :: 0 <= j < n ==> !QualifiesFor(points[j], h)
    ensures ChosenAmong(points, n + 1, h, n)
  {
  }

  function Hours(labels: seq<Label>): set<int>
  {
    set l | l in labels :: l.hour
  }

  /** The `forEach` of `xAxisTicks`: `ticksMap` keeps, per hour, the qualifying point with the
      smallest minute, the first one on a tie. `chosen` records the index of each kept point. */
  method BuildTicksMap(points: seq<Sample>) returns (ticksMap: map<int, Sample>, ghost chosen: map<int, nat>)
    ensures ticksMap.Keys == chosen.Keys
    ensures forall h :: h in chosen ==> ChosenAmong(points, |points|, h, chosen[h]) && ticksMap[h] == points[chosen[h]]
    ensures forall i :: 0 <= i < |points| && Qualifies(points[i]) ==> HourOf(points[i].timestamp) in ticksMap
  {
    ticksMap := map[];
    chosen := map[];
    for i := 0 to |points|
      invariant ticksMap.Keys == chosen.Keys
      invariant forall h :: h in chosen ==> ChosenAmong(points, i, h, chosen[h]) && ticksMap[h] == points[chosen[h]]
      invariant forall j :: 0 <= j < i && Qualifies(points[j]) ==> HourOf(points[j].timestamp) in chosen
    {
      var point := points[i];
      var hour := HourOf(point.timestamp);
      var minute := MinuteOf(point.timestamp);
      ghost var before := chosen;
      if hour % 4 == 0 && minute < 10 && (hour !in ticksMap || minute < MinuteOf(ticksMap[hour].timestamp)) {
        ticksMap := ticksMap[hour := point];
        chosen := chosen[hour := i];
      }
      forall h | h in chosen
        ensures ChosenAmong(points, i + 1, h, chosen[h])
      {
        if h == hour && chosen[h] == i {
          if h in before {
            ChosenReplace(points, i, h, before[h]);
          } else {
            ChosenFirst(points, i, h);
          }
        } else {
          ChosenKeep(points, i, h, chosen[h]);
        }
      }
    }
  }

  /** Every key of `ticksMap` is the hour of its point and a multiple of 4. */
  predicate KeyedByHour(ticksMap: map<int, Sample>)
  {
    forall h :: h in ticksMap ==> HourOf(ticksMap[h].timestamp) == h && h % 4 == 0
  }

  /** `labels` holds, in ascending hour order, the label of every kept point whose hour is
      below `bound`, and nothing else. */
  predicate CollectedBelow(ticksMap: map<int, Sample>, labels: seq<Label>, bound: int)
  {
    (forall k :: 0 <= k < |labels| ==>
      labels[k].hour in ticksMap && labels[k] == LabelOf(ticksMap[labels[k].hour]) && labels[k].hour < bound) &&
    (forall a, b :: 0 <= a < b < |labels| ==> labels[a].hour < labels[b].hour) &&
    Hours(labels) == set h | h in ticksMap && h < bound
  }

  /** Visiting hour 4q extends the collection from hours below 4q to hours below 4q + 4. */
  lemma CollectStep(ticksMap: map<int, Sample>, labels: seq<Label>, q: int)
    requires KeyedByHour(ticksMap) && CollectedBelow(ticksMap, labels, 4 * q)
    ensures 4 * q in ticksMap ==> CollectedBelow(ticksMap, labels + [LabelOf(ticksMap[4 * q])], 4 * q + 4)
    ensures 4 * q !in ticksMap ==> CollectedBelow(ticksMap, labels, 4 * q + 4)
  {
    var h := 4 * q;
    assert (set x | x in ticksMap && x < h + 4) == (set x | x in ticksMap && x < h) + (if h in ticksMap then {h} else {}) by {
      forall x | x in ticksMap && x < h + 4
        ensures x < h || x == h
      {
        assert x % 4 == 0;
      }
    }
    if h in ticksMap {
      var next := labels + [LabelOf(ticksMap[h])];
      assert Hours(next) == Hours(labels) + {h} by {
        assert forall l :: l in next <==> l in labels || l == LabelOf(ticksMap[h]);
      }
    }
  }

  /** `Array.from(ticksMap.values()).map(point => point.time).sort()`: the labels of the kept
      points in ascending order. Every key is one of the hours 0, 4, ..., 20, so collecting
      the labels by ascending hour yields the sorted list. */
  method SortedLabels(ticksMap: map<int, Sample>) returns (labels: seq<Label>)
    requires KeyedByHour(ticksMap)
    ensures forall k :: 0 <= k < |labels| ==> labels[k].hour in ticksMap && labels[k] == LabelOf(ticksMap[labels[k].hour])
    ensures forall a, b :: 0 <= a < b < |labels| ==> labels[a].hour < labels[b].hour
    ensures Hours(labels) == ticksMap.Keys
  {
    labels := [];
    for q := 0 to 6
      invariant CollectedBelow(ticksMap, labels, 4 * q)
    {
      CollectStep(ticksMap, labels, q);
      if 4 * q in ticksMap {
        labels := labels + [LabelOf(ticksMap[4 * q])];
      }
    }
    assert forall h :: h in ticksMap ==> h < 24 by {
      forall h | h in ticksMap
        ensures h < 24
      {
        assert h == HourOf(ticksMap[h].timestamp);
      }
    }
    assert (set h | h in ticksMap && h < 24) == ticksMap.Keys;
  }

  /** `xAxisTicks`: the sorted labels of the kept points, `None` when there are none. */
  method XAxisTicks(points: seq<Sample>) returns (ticks: Option<seq<Label>>, ghost chosen: map<int, nat>)
    ensures ticks.None? <==> forall i :: 0 <= i < |points| ==> !Qualifies(points[i])
    ensures ticks.Some? ==> forall k :: 0 <= k < |ticks.value| ==>
      ticks.value[k].hour in chosen && ChosenAmong(points, |points|, ticks.value[k].hour, chosen[ticks.value[k].hour]) &&
      ticks.value[k] == LabelOf(points[chosen[ticks.value[k].hour]])
    ensures ticks.Some? ==> forall a, b :: 0 <= a < b < |ticks.value| ==> ticks.value[a].hour < ticks.value[b].hour
    ensures ticks.Some? ==> forall i :: 0 <= i < |points| && Qualifies(points[i]) ==> HourOf(points[i].timestamp) in Hours(ticks.value)
  {
    if |points| == 0 {
      return None, map[];
    }
    var ticksMap;
    ticksMap, chosen := BuildTicksMap(points);
    var labels := SortedLabels(ticksMap);
    if |labels| > 0 {
      var c := chosen[labels[0].hour];
      assert Qualifies(points[c]);
      ticks := Some(labels);
    } else {
      ticks := None;
    }
  }

  // ---------------------------------------------------------------------------
  // y-axis domain

  datatype AxisDomain = AxisDomain(lo: real, hi: real)

  function Values(history: seq<Sample>): (vs: seq<real>)
    ensures |vs| == |history| && forall i :: 0 <= i < |history| ==> vs[i] == history[i].value
  {
    seq(|history|, i requires 0 <= i < |history| => history[i].value)
  }

  /** `Math.min(...xs)` of a non-empty list. */
  function MinOf(xs: seq<real>): (m: real)
    requires |xs| > 0
    ensures m in xs && forall i :: 0 <= i < |xs| ==> m <= xs[i]
    decreases |xs|
  {
    if |xs| == 1 then xs[0]
    else
      var rest := MinOf(xs[1..]);
      if xs[0] <= rest then xs[0] else rest
  }

  /** `Math.max(...xs)` of a non-empty list. */
  function MaxOf(xs: seq<real>): (m: real)
    requires |xs| > 0
    ensures m in xs && forall i :: 0 <= i < |xs| ==> xs[i] <= m
    decreases |xs|
  {
    if |xs| == 1 then xs[0]
    else
      var rest := MaxOf(xs[1..]);
      if xs[0] >= rest then xs[0] else rest
  }

  /** `Math.floor` */
  function Floor(x: real): (r: real)
    ensures r == r.Floor as real && r <= x < r + 1.0
  {
    x.Floor as real
  }

  /** `Math.ceil` */
  function Ceil(x: real): (r: real)
    ensures r == r.Floor as real && r - 1.0 < x <= r
  {
    var f := (-x).Floor;
    assert f as real <= -x < f as real + 1.0;
    (-f) as real
  }

  /** `yAxisDomain`: both configured bounds verbatim; `[0, 100]` for an empty history;
      otherwise each bound from its configuration or the history's extreme value, padded by a
      tenth of their distance and rounded outwards to whole numbers. */
  function YAxisDomain(minValue: Option<real>, maxValue: Option<real>, history: seq<Sample>): (d: AxisDomain)
    ensures minValue.Some? && maxValue.Some? ==> d == AxisDomain(minValue.value, maxValue.value)
    ensures !(minValue.Some? && maxValue.Some?) && |history| == 0 ==> d == AxisDomain(0.0, 100.0)
    ensures !(minValue.Some? && maxValue.Some?) && |history| > 0 ==>
      var lo := if minValue.Some? then minValue.value else MinOf(Values(history));
      var hi := if maxValue.Some? then maxValue.value else MaxOf(Values(history));
      var padding := (hi - lo) * 0.1;
      d.lo == d.lo.Floor as real && d.lo <= lo - padding < d.lo + 1.0 &&
      d.hi == d.hi.Floor as real && d.hi - 1.0 < hi + padding <= d.hi
  {
    if minValue.Some? && maxValue.Some? then AxisDomain(minValue.value, maxValue.value)
    else if |history| == 0 then AxisDomain(0.0, 100.0)
    else
      var values := Values(history);
      var lo := if minValue.Some? then minValue.value else MinOf(values);
      var hi := if maxValue.Some? then maxValue.value else MaxOf(values);
      var padding := (hi - lo) * 0.1;
      AxisDomain(Floor(lo - padding), Ceil(hi + padding))
  }

  /** Whenever the lower bound used does not exceed the upper one, the padded domain contains
      both; with no configured bounds it contains every value of the history. */
  lemma YAxisDomainCovers(minValue: Option<real>, maxValue: Option<real>, history: seq<Sample>)
    requires !(minValue.Some? && maxValue.Some?) && |history| > 0
    requires (if minValue.Some? then minValue.value else MinOf(Values(history))) <=
             (if maxValue.Some? then maxValue.value else MaxOf(Values(history)))
    ensures YAxisDomain(minValue, maxValue, history).lo <= (if minValue.Some? then minValue.value else MinOf(Values(history)))
    ensures YAxisDomain(minValue, maxValue, history).hi >= (if maxValue.Some? then maxValue.value else MaxOf(Values(history)))
    ensures minValue.None? && maxValue.None? ==> forall i :: 0 <= i < |history| ==>
      YAxisDomain(minValue, maxValue, history).lo <= history[i].value <= YAxisDomain(minValue, maxValue, history).hi
  {
    var d := YAxisDomain(minValue, maxValue, history);
    var vs := Values(history);
    if minValue.None? && maxValue.None? {
      forall i | 0 <= i < |history|
        ensures d.lo <= history[i].value <= d.hi
      {
        assert vs[i] == history[i].value;
      }
    }
  }
}
