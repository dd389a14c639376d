/**
 * Time arithmetic of the history graph in src/cards/GraphCard.tsx. Timestamps are integer
 * milliseconds; minutes and hours are taken in UTC.
 */
module GraphTime {

  const MinuteMs: int := 60000
  const HourMs: int := 3600000
  /** The spacing of the resampled series: 20 minutes. */
  const GridMs: int := 1200000

  /** `new Date(t).getMinutes()` */
  function MinuteOf(t: int): int
  {
    (t / MinuteMs) % 60
  }

  /** `new Date(t).getHours()` */
  function HourOf(t: int): int
  {
    (t / HourMs) % 24
  }

  /** `t` with seconds and milliseconds set to zero. */
  function TruncMinute(t: int): int
  {
    t - t % MinuteMs
  }

  /** Within the hour, `t` is its minute of the hour plus its milliseconds within the minute. */
  lemma HourDecomposition(t: int)
    ensures t % HourMs == MinuteOf(t) * MinuteMs + t % MinuteMs
  {
    var a := t / MinuteMs;
    var b := t % MinuteMs;
    assert t == a * MinuteMs + b;
    var h := a / 60;
    var m := a % 60;
    assert a == h * 60 + m;
    assert t == h * HourMs + (m * MinuteMs + b);
    assert 0 <= m * MinuteMs + b < HourMs;
  }

  /** `firstCleanTime`: the hour of `t0` plus `ceil(minute / 20) * 20` minutes, seconds and
      milliseconds zeroed, rolling over to the next hour at minute 60. It is the first
      20-minute boundary at or after `t0` truncated to the minute, so it may lie up to a
      minute before `t0` itself. */
  function FirstGridTime(t0: int): (g: int)
    ensures g % GridMs == 0
    ensures TruncMinute(t0) <= g < TruncMinute(t0) + GridMs
    ensures MinuteOf(t0) > 40 ==> g == t0 - t0 % HourMs + HourMs
  {
    var m := MinuteOf(t0);
    var next := ((m + 19) / 20) * 20;
    var hourStart := t0 - t0 % HourMs;
    var windows := (t0 / HourMs) * 3;
    CleanTimeFacts(t0);
    if next >= 60 then
      GridRemainder(hourStart + HourMs, windows + 3, 0);
      hourStart + HourMs
    else
      GridRemainder(hourStart + next * MinuteMs, windows + next / 20, 0);
      hourStart + next * MinuteMs
  }

  /** The hour of `t0` starts at a multiple of 20 minutes, and `t0` truncated to the minute is
      that start plus its minute of the hour. */
  lemma CleanTimeFacts(t0: int)
    ensures t0 - t0 % HourMs == ((t0 / HourMs) * 3) * GridMs
    ensures TruncMinute(t0) == t0 - t0 % HourMs + MinuteOf(t0) * MinuteMs
    ensures 0 <= MinuteOf(t0) < 60
  {
    HourDecomposition(t0);
  }

  /** `t == k * 60000 + b` with `0 <= b < 60000` determines the remainder by one minute. */
  lemma MinuteRemainder(t: int, k: int, b: int)
    requires 0 <= b < MinuteMs && t == k * MinuteMs + b
    ensures t % MinuteMs == b
  {
    var k', b' := t / MinuteMs, t % MinuteMs;
    assert t == k' * MinuteMs + b';
    assert k' == k;
  }

  /** `t == k * 1200000 + b` with `0 <= b < 1200000` determines the remainder by 20 minutes. */
  lemma GridRemainder(t: int, k: int, b: int)
    requires 0 <= b < GridMs && t == k * GridMs + b
    ensures t % GridMs == b
  {
    var k', b' := t / GridMs, t % GridMs;
    assert t == k' * GridMs + b';
    assert k' == k;
  }

  /** A 20-minute boundary has zero seconds and milliseconds and a minute in {0, 20, 40}. */
  lemma GridTimeMinute(g: int)
    requires g % GridMs == 0
    ensures g % MinuteMs == 0
    ensures MinuteOf(g) == 0 || MinuteOf(g) == 20 || MinuteOf(g) == 40
  {
    var q := g / GridMs;
    assert g == q * GridMs;
    assert g == (q * 20) * MinuteMs;
    assert g / MinuteMs == q * 20;
    assert (q * 20) % 60 == (q % 3) * 20;
  }

  /** The first grid time depends only on the 20-minute window `t0` falls into: the window's
      start, unless `t0` lies past its first minute, in which case the next window's start. */
  lemma FirstGridTimeByWindow(t0: int)
    ensures FirstGridTime(t0) ==
      if t0 % GridMs < MinuteMs then t0 - t0 % GridMs else t0 - t0 % GridMs + GridMs
  {
    var w := t0 - t0 % GridMs;
    MinuteWithinGrid(t0);
    WindowStart(t0);
    if t0 % GridMs < MinuteMs {
      SameMultiple(FirstGridTime(t0), w, TruncMinute(t0));
    } else {
      SameMultiple(FirstGridTime(t0), w + GridMs, TruncMinute(t0));
    }
  }

  /** The start of `t0`'s 20-minute window and the next window's start are multiples of 20
      minutes. */
  lemma WindowStart(t0: int)
    ensures (t0 - t0 % GridMs) % GridMs == 0 && (t0 - t0 % GridMs + GridMs) % GridMs == 0
  {
    var q := t0 / GridMs;
    assert t0 - t0 % GridMs == q * GridMs;
    assert t0 - t0 % GridMs + GridMs == (q + 1) * GridMs;
  }

  /** Truncating `t0` to the minute lands on its window's start when `t0` lies in the
      window's first minute, and strictly inside the window otherwise. */
  lemma MinuteWithinGrid(t0: int)
    ensures t0 % GridMs < MinuteMs ==> TruncMinute(t0) == t0 - t0 % GridMs
    ensures t0 % GridMs >= MinuteMs ==>
      t0 - t0 % GridMs < TruncMinute(t0) <= t0 - t0 % GridMs + GridMs
  {
    var r := t0 % GridMs;
    var q := t0 / GridMs;
    var a := r / MinuteMs;
    var b := r % MinuteMs;
    assert r == a * MinuteMs + b && 0 <= b < MinuteMs;
    assert t0 == (q * 20 + a) * MinuteMs + b;
    MinuteRemainder(t0, q * 20 + a, b);
    if r < MinuteMs {
      assert a == 0;
    }
  }

  /** A span of 20 minutes holds only one multiple of 20 minutes. */
  lemma SameMultiple(a: int, b: int, lo: int)
    requires a % GridMs == 0 && b % GridMs == 0
    requires lo <= a < lo + GridMs && lo <= b < lo + GridMs
    ensures a == b
  {
    var ka, kb := a / GridMs, b / GridMs;
    assert a == ka * GridMs && b == kb * GridMs;
  }

  /** A first sample 30 seconds past midnight gets its first grid point at midnight, before
      the sample: the value there is extrapolated. */
  lemma FirstGridTimeBeforeSample()
    ensures FirstGridTime(30000) == 0
  {
    FirstGridTimeByWindow(30000);
  }
}
