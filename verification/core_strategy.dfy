/**
 * The signal/decision engine: smoothed (Heikin-Ashi) candles, signed streaks,
 * the Fibonacci pivot ladder of the previous calendar period, the proximity
 * flags and the SHORT / BUY / WAIT decision with its entry zone, targets and stop.
 *
 * Prices are exact reals. The MACD-histogram sign per bar, the RSI value and
 * the ATR value are inputs: the exponential smoothing that produces them is not
 * part of this model.
 */
module CoreStrategy {
  import opened Calendar

  // ---------------------------------------------------------------- Config

  datatype Horizon = Short | Mid | Long

  datatype Stance = Buy | SellShort | Wait

  /** Label of the calendar period whose bars anchor the pivot ladder. */
  datatype Frame = Week | Month | Year

  /** Streak length of the smoothed-candle colour that counts as exhausted. */
  function HaNeed(h: Horizon): int {
    match h
    case Short => 4
    case Mid => 5
    case Long => 6
  }

  /** Streak length of the MACD-histogram sign that counts as exhausted. */
  function MacdNeed(h: Horizon): int {
    match h
    case Short => 4
    case Mid => 6
    case Long => 8
  }

  /** Relative distance to a level that still counts as "at" the level. */
  function Tol(h: Horizon): real {
    match h
    case Short => 0.008
    case Mid => 0.010
    case Long => 0.012
  }

  /** Number of most recent bars used when the previous period holds no bar. */
  function FallbackCount(f: Frame): nat {
    match f
    case Week => 5
    case Month => 21
    case Year => 252
  }

  // ---------------------------------------------------------------- Bars

  datatype Bar = Bar(date: Date, open: real, high: real, low: real, close: real, volume: real)

  /**
   * The history the engine analyses: non-empty, valid dates in date order
   * (the order `sort_values("date")` leaves), the latest in year 2 or later:
   * a simplification that lets every horizon take its previous period without
   * a special case for year 1.
   */
  predicate ValidHistory(bars: seq<Bar>) {
    && |bars| > 0
    && (forall i :: 0 <= i < |bars| ==> ValidDate(bars[i].date))
    && (forall i :: 0 < i < |bars| ==> Ordinal(bars[i - 1].date) <= Ordinal(bars[i].date))
    && bars[|bars| - 1].date.year >= 2
  }

  // ---------------------------------------------------------------- Smoothed candles

  datatype Candle = Candle(open: real, close: real, green: bool)

  /** Smoothed close: the mean of the raw bar's four prices. */
  function HaClose(b: Bar): real {
    (b.open + b.high + b.low + b.close) / 4.0
  }

  /** Smoothed open of bar i, as the left-to-right recurrence defines it. */
  function HaOpen(bars: seq<Bar>, i: nat): real
    requires i < |bars|
  {
    if i == 0 then (bars[0].open + bars[0].close) / 2.0
    else (HaOpen(bars, i - 1) + HaClose(bars[i - 1])) / 2.0
  }

  /** The "up" flag of every bar: smoothed close strictly above smoothed open. */
  function UpFlags(bars: seq<Bar>): seq<bool> {
    seq(|bars|, i requires 0 <= i < |bars| => HaClose(bars[i]) > HaOpen(bars, i))
  }

  /** ha is the smoothed-candle frame of bars, row by row. */
  predicate SmoothedCandles(bars: seq<Bar>, ha: seq<Candle>) {
    && |ha| == |bars| > 0
    && ha[0].open == (bars[0].open + bars[0].close) / 2.0
    && (forall i :: 0 <= i < |ha| ==> ha[i].close == HaClose(bars[i]))
    && (forall i :: 0 < i < |ha| ==> ha[i].open == (ha[i - 1].open + ha[i - 1].close) / 2.0)
    && (forall i :: 0 <= i < |ha| ==> (ha[i].green <==> ha[i].close > ha[i].open))
  }

  /** Builds the smoothed candles, filling the open column in place. */
  method HeikinAshi(bars: seq<Bar>) returns (ha: seq<Candle>)
    requires |bars| > 0
    ensures SmoothedCandles(bars, ha)
  {
    var n := |bars|;
    var close := seq(n, i requires 0 <= i < n => HaClose(bars[i]));
    var open := new real[n](_ => 0.0);
    open[0] := (bars[0].open + bars[0].close) / 2.0;
    for i := 1 to n
      invariant open[0] == (bars[0].open + bars[0].close) / 2.0
      invariant forall j :: 0 < j < i ==> open[j] == (open[j - 1] + close[j - 1]) / 2.0
    {
      open[i] := (open[i - 1] + close[i - 1]) / 2.0;
    }
    ha := seq(n, i requires 0 <= i < n reads open => Candle(open[i], close[i], close[i] > open[i]));
  }

  /** The open column of any frame satisfying the recurrence is HaOpen. */
  lemma {:induction false} CandleOpenAt(bars: seq<Bar>, ha: seq<Candle>, i: nat)
    requires SmoothedCandles(bars, ha) && i < |ha|
    ensures ha[i].open == HaOpen(bars, i)
  {
    if i > 0 {
      CandleOpenAt(bars, ha, i - 1);
    }
  }

  /** The recurrence determines the candles: their colours are exactly UpFlags. */
  lemma CandlesDetermined(bars: seq<Bar>, ha: seq<Candle>)
    requires SmoothedCandles(bars, ha)
    ensures Greens(ha) == UpFlags(bars)
  {
    forall i | 0 <= i < |ha|
      ensures ha[i].open == HaOpen(bars, i)
    {
      CandleOpenAt(bars, ha, i);
    }
  }

  function Greens(ha: seq<Candle>): seq<bool> {
    seq(|ha|, i requires 0 <= i < |ha| => ha[i].green)
  }

  // ---------------------------------------------------------------- Streaks

  function Abs(x: int): nat {
    if x < 0 then -x else x
  }

  /** Number of trailing elements of s equal to v. */
  function RunLength(s: seq<bool>, v: bool): (n: nat)
    ensures n <= |s|
    ensures forall k :: |s| - n <= k < |s| ==> s[k] == v
    ensures n < |s| ==> s[|s| - 1 - n] != v
  {
    if |s| == 0 || s[|s| - 1] != v then 0 else 1 + RunLength(s[..|s| - 1], v)
  }

  /** The last n elements of s all equal the last one, and the one before them (if any) does not. */
  predicate MaximalTrailingRun(s: seq<bool>, n: int) {
    && 1 <= n <= |s|
    && (forall k :: |s| - n <= k < |s| ==> s[k] == s[|s| - 1])
    && (n < |s| ==> s[|s| - 1 - n] != s[|s| - 1])
  }

  /** Signed length of the trailing run: positive for a run of true, negative for false, 0 when empty. */
  function StreakOf(s: seq<bool>): (r: int)
    ensures |s| == 0 ==> r == 0
    ensures |s| > 0 ==> MaximalTrailingRun(s, Abs(r)) && (r > 0 <==> s[|s| - 1])
  {
    if |s| == 0 then 0
    else
      var n := RunLength(s, s[|s| - 1]);
      if s[|s| - 1] then n as int else -(n as int)
  }

  /** Counts backwards from the last flag until the value changes. */
  method Streak(flags: seq<bool>) returns (r: int)
    ensures r == StreakOf(flags)
  {
    if |flags| == 0 {
      return 0;
    }
    var last := flags[|flags| - 1];
    var cnt := 1;
    var i := |flags| - 1;
    while i > 0
      invariant 0 <= i < |flags|
      invariant cnt == |flags| - i
      invariant forall k :: i <= k < |flags| ==> flags[k] == last
    {
      if flags[i - 1] == last {
        cnt := cnt + 1;
        i := i - 1;
      } else {
        break;
      }
    }
    assert MaximalTrailingRun(flags, cnt);
    r := if last then cnt else -cnt;
  }

  // ---------------------------------------------------------------- Pivot ladder

  datatype Ladder = Ladder(p: real, r1: real, r2: real, r3: real, s1: real, s2: real, s3: real)

  /** Fibonacci pivots of a period with the given high, low and close. */
  function FibPivots(high: real, low: real, close: real): (l: Ladder)
    ensures 3.0 * l.p == high + low + close
    ensures l.r1 - l.p == l.p - l.s1 && l.r2 - l.p == l.p - l.s2 && l.r3 - l.p == l.p - l.s3
    ensures l.r3 - l.s3 == 2.0 * (high - low)
    ensures high > low ==> l.s3 < l.s2 < l.s1 < l.p < l.r1 < l.r2 < l.r3
    ensures high == low ==> l.r1 == l.r2 == l.r3 == l.s1 == l.s2 == l.s3 == l.p
    ensures low <= close <= high ==> l.s3 <= low && high <= l.r3
  {
    var rng := high - low;
    var p := (high + low + close) / 3.0;
    Ladder(p, p + 0.382 * rng, p + 0.618 * rng, p + 1.000 * rng,
           p - 0.382 * rng, p - 0.618 * rng, p - 1.000 * rng)
  }

  // ---------------------------------------------------------------- Previous period

  /** A closed window of day numbers [start, end] and its label. */
  datatype Period = Period(start: int, end: int, frame: Frame)

  function PreviousMonthYear(d: Date): int {
    if d.month == 1 then d.year - 1 else d.year
  }

  function PreviousMonth(d: Date): int {
    if d.month == 1 then 12 else d.month - 1
  }

  /** The Monday-to-Sunday week before the week of `last`. */
  function WeekBefore(last: Date): (pd: Period)
    requires ValidDate(last) && last.year >= 2
    ensures pd.frame == Week && pd.end - pd.start == 6
    ensures Weekday(pd.start) == 0 && Weekday(pd.end) == 6
    ensures 1 <= Ordinal(last) - pd.end <= 7
  {
    var n := Ordinal(last);
    var end := n - (Weekday(n) + 1);
    SundayBefore(n);
    Period(end - 6, end, Week)
  }

  /** Going back weekday + 1 days from any day lands on the Sunday before its week. */
  lemma SundayBefore(n: int)
    ensures var end := n - (Weekday(n) + 1);
      Weekday(end) == 6 && Weekday(end - 6) == 0 && 1 <= n - end <= 7
  {
    var q := (n + 6) / 7;
    assert n - (Weekday(n) + 1) + 6 == 7 * q - 1;
    assert n - (Weekday(n) + 1) == 7 * (q - 1);
  }

  /** The calendar month before the month of `last`. */
  function MonthBefore(last: Date): (pd: Period)
    requires ValidDate(last) && last.year >= 2
    ensures var y, m := PreviousMonthYear(last), PreviousMonth(last);
      && pd.frame == Month
      && pd.start == Ordinal(Date(y, m, 1))
      && pd.end == Ordinal(Date(y, m, DaysInMonth(y, m)))
      && pd.end + 1 == Ordinal(Date(last.year, last.month, 1))
  {
    var firstOfThisMonth := Date(last.year, last.month, 1);
    var end := DayBefore(firstOfThisMonth);
    var start := Date(end.year, end.month, 1);
    Period(Ordinal(start), Ordinal(end), Month)
  }

  /** The calendar year before the year of `last`. */
  function YearBefore(last: Date): (pd: Period)
    requires ValidDate(last) && last.year >= 2
    ensures pd.frame == Year
    ensures pd.start == Ordinal(Date(last.year - 1, 1, 1))
    ensures pd.end == Ordinal(Date(last.year - 1, 12, 31))
    ensures pd.end + 1 == Ordinal(Date(last.year, 1, 1))
  {
    var firstOfThisYear := Date(last.year, 1, 1);
    var end := DayBefore(firstOfThisYear);
    var start := Date(end.year, 1, 1);
    Period(Ordinal(start), Ordinal(end), Year)
  }

  /**
   * The previous complete period before `last`: the Monday-to-Sunday week
   * before its week, the calendar month before its month, or the calendar
   * year before its year; it always ends before `last`.
   */
  function PeriodBounds(h: Horizon, last: Date): (pd: Period)
    requires ValidDate(last) && last.year >= 2
    ensures pd.start <= pd.end < Ordinal(last)
    ensures pd.frame == (match h case Short => Week case Mid => Month case Long => Year)
  {
    match h
    case Short => WeekBefore(last)
    case Mid => MonthBefore(last)
    case Long => YearBefore(last)
  }

  /** The month window holds exactly the dates of the previous calendar month. */
  lemma MonthWindowIsPreviousMonth(last: Date, d: Date)
    requires ValidDate(last) && last.year >= 2 && ValidDate(d)
    ensures var pd := MonthBefore(last);
      pd.start <= Ordinal(d) <= pd.end
      <==> d.year == PreviousMonthYear(last) && d.month == PreviousMonth(last)
  {
    var y, m := PreviousMonthYear(last), PreviousMonth(last);
    OrdinalOrder(d, Date(y, m, 1));
    OrdinalOrder(d, Date(y, m, DaysInMonth(y, m)));
  }

  /** The year window holds exactly the dates of the previous calendar year. */
  lemma YearWindowIsPreviousYear(last: Date, d: Date)
    requires ValidDate(last) && last.year >= 2 && ValidDate(d)
    ensures var pd := YearBefore(last);
      pd.start <= Ordinal(d) <= pd.end <==> d.year == last.year - 1
  {
    var first, final := Date(last.year - 1, 1, 1), Date(last.year - 1, 12, 31);
    assert ValidDate(first) && ValidDate(final);
    var pd := YearBefore(last);
    assert pd.start == Ordinal(first) && pd.end == Ordinal(final);
    OrdinalOrder(d, first);
    OrdinalOrder(d, final);
  }

  // ---------------------------------------------------------------- Reference segment

  predicate InPeriod(b: Bar, pd: Period)
    requires ValidDate(b.date)
  {
    pd.start <= Ordinal(b.date) <= pd.end
  }

  /** Bar j is inside the period and no later bar is. */
  predicate LastInPeriodAt(bars: seq<Bar>, pd: Period, j: int)
    requires forall i :: 0 <= i < |bars| ==> ValidDate(bars[i].date)
  {
    && 0 <= j < |bars| && InPeriod(bars[j], pd)
    && forall k :: j < k < |bars| ==> !InPeriod(bars[k], pd)
  }

  /**
   * r is what filtering bars by the period gives: only in-period bars of the
   * history, each in-period bar as often as it occurs there, and, when r is
   * not empty, the last in-period bar of the history last.
   */
  predicate FilteredBy(bars: seq<Bar>, pd: Period, r: seq<Bar>)
    requires forall i :: 0 <= i < |bars| ==> ValidDate(bars[i].date)
  {
    && (forall b :: b in r ==> b in bars && InPeriod(b, pd))
    && (forall i :: 0 <= i < |bars| && InPeriod(bars[i], pd) ==> bars[i] in r)
    && (forall b :: b in bars ==> multiset(r)[b] == if InPeriod(b, pd) then multiset(bars)[b] else 0)
    && (|r| > 0 ==> exists j :: 0 <= j < |bars| && LastInPeriodAt(bars, pd, j) && r[|r| - 1] == bars[j])
  }

  /** Appending an in-period bar to the history appends it to the filtered bars. */
  lemma FilterKeeps(front: seq<Bar>, last: Bar, pd: Period, rest: seq<Bar>)
    requires forall i :: 0 <= i < |front| ==> ValidDate(front[i].date)
    requires ValidDate(last.date) && InPeriod(last, pd)
    requires FilteredBy(front, pd, rest)
    ensures FilteredBy(front + [last], pd, rest + [last])
  {
    var bars, r := front + [last], rest + [last];
    assert forall i :: 0 <= i < |bars| ==> ValidDate(bars[i].date) by {
      assert forall i :: 0 <= i < |front| ==> bars[i] == front[i];
    }
    assert multiset(bars) == multiset(front) + multiset{last};
    assert multiset(r) == multiset(rest) + multiset{last};
    forall b | b in bars
      ensures multiset(r)[b] == if InPeriod(b, pd) then multiset(bars)[b] else 0
    {
      if b !in front {
        assert b !in rest;
      }
    }
    assert LastInPeriodAt(bars, pd, |bars| - 1);
    forall i | 0 <= i < |bars| && InPeriod(bars[i], pd)
      ensures bars[i] in r
    {
      if i < |front| {
        assert bars[i] == front[i];
      }
    }
  }

  /** Appending an out-of-period bar to the history leaves the filtered bars as they are. */
  lemma FilterSkips(front: seq<Bar>, last: Bar, pd: Period, rest: seq<Bar>)
    requires forall i :: 0 <= i < |front| ==> ValidDate(front[i].date)
    requires ValidDate(last.date) && !InPeriod(last, pd)
    requires FilteredBy(front, pd, rest)
    ensures FilteredBy(front + [last], pd, rest)
  {
    var bars := front + [last];
    assert forall i :: 0 <= i < |front| ==> bars[i] == front[i];
    assert forall b :: b in rest ==> b in bars && InPeriod(b, pd);
    assert forall i :: 0 <= i < |bars| && InPeriod(bars[i], pd) ==> bars[i] in rest by {
      forall i | 0 <= i < |bars| && InPeriod(bars[i], pd)
        ensures bars[i] in rest
      {
        assert i < |front|;
      }
    }
    assert multiset(bars) == multiset(front) + multiset{last};
    forall b | b in bars
      ensures multiset(rest)[b] == if InPeriod(b, pd) then multiset(bars)[b] else 0
    {
      if b !in front {
        assert b == last && b !in rest;
      }
    }
    if |rest| > 0 {
      var j :| 0 <= j < |front| && LastInPeriodAt(front, pd, j) && rest[|rest| - 1] == front[j];
      assert LastInPeriodAt(bars, pd, j);
    }
  }

  /** The bars dated inside the period, in their original order. */
  function BarsIn(bars: seq<Bar>, pd: Period): (r: seq<Bar>)
    requires forall i :: 0 <= i < |bars| ==> ValidDate(bars[i].date)
    ensures |r| <= |bars|
    ensures FilteredBy(bars, pd, r)
  {
    if |bars| == 0 then []
    else
      var front, last := bars[..|bars| - 1], bars[|bars| - 1];
      assert bars == front + [last];
      var rest := BarsIn(front, pd);
      if InPeriod(last, pd) then
        FilterKeeps(front, last, pd, rest);
        rest + [last]
      else
        FilterSkips(front, last, pd, rest);
        rest
  }

  /** The last n bars (all of them when there are fewer). */
  function Tail(bars: seq<Bar>, n: nat): (t: seq<Bar>)
    ensures |t| == if n < |bars| then n else |bars|
    ensures forall i :: 0 <= i < |t| ==> t[i] == bars[|bars| - |t| + i]
  {
    if n >= |bars| then bars else bars[|bars| - n..]
  }

  /**
   * The bars the pivots are computed from: those of the previous period, or,
   * when it holds none, the most recent bars approximating its length.
   */
  function ReferenceSegment(bars: seq<Bar>, pd: Period): (seg: seq<Bar>)
    requires forall i :: 0 <= i < |bars| ==> ValidDate(bars[i].date)
    ensures |bars| > 0 ==> |seg| > 0
    ensures forall b :: b in seg ==> b in bars
    ensures (exists i :: 0 <= i < |bars| && InPeriod(bars[i], pd)) ==> FilteredBy(bars, pd, seg)
    ensures (forall i :: 0 <= i < |bars| ==> !InPeriod(bars[i], pd)) ==>
      var k := if FallbackCount(pd.frame) < |bars| then FallbackCount(pd.frame) else |bars|;
      |seg| == k && seg == bars[|bars| - k..]
  {
    var inWindow := BarsIn(bars, pd);
    if inWindow != [] then
      assert inWindow[0] in bars && InPeriod(inWindow[0], pd);
      inWindow
    else
      var tail := Tail(bars, FallbackCount(pd.frame));
      assert tail == bars[|bars| - |tail|..];
      tail
  }

  function MaxHigh(s: seq<Bar>): (m: real)
    requires |s| > 0
    ensures forall i :: 0 <= i < |s| ==> s[i].high <= m
    ensures exists i :: 0 <= i < |s| && s[i].high == m
  {
    if |s| == 1 then s[0].high
    else
      var rest := MaxHigh(s[1..]);
      assert forall i :: 1 <= i < |s| ==> s[i] == s[1..][i - 1];
      if s[0].high >= rest then s[0].high else rest
  }

  function MinLow(s: seq<Bar>): (m: real)
    requires |s| > 0
    ensures forall i :: 0 <= i < |s| ==> m <= s[i].low
    ensures exists i :: 0 <= i < |s| && s[i].low == m
  {
    if |s| == 1 then s[0].low
    else
      var rest := MinLow(s[1..]);
      assert forall i :: 1 <= i < |s| ==> s[i] == s[1..][i - 1];
      if s[0].low <= rest then s[0].low else rest
  }

  /** Pivots of a segment: its highest high, lowest low and last close. */
  function SegmentLadder(seg: seq<Bar>): Ladder
    requires |seg| > 0
  {
    FibPivots(MaxHigh(seg), MinLow(seg), seg[|seg| - 1].close)
  }

  /** On bars whose low never exceeds their high, the ladder is ordered and brackets the segment's range. */
  lemma SegmentLadderOrdered(seg: seq<Bar>)
    requires |seg| > 0
    requires forall i :: 0 <= i < |seg| ==> seg[i].low <= seg[i].close <= seg[i].high
    ensures var l := SegmentLadder(seg);
      l.s3 <= l.s2 <= l.s1 <= l.p <= l.r1 <= l.r2 <= l.r3
      && l.s3 <= MinLow(seg) && MaxHigh(seg) <= l.r3
  {
    var last := seg[|seg| - 1];
    assert MinLow(seg) <= last.low <= last.close <= last.high <= MaxHigh(seg);
  }

  // ---------------------------------------------------------------- Proximity

  function AbsReal(x: real): real {
    if x < 0.0 then -x else x
  }

  function MaxReal(a: real, b: real): real {
    if a >= b then a else b
  }

  /** Price is within relative distance tol of level (relative to max(1e-6, level)). */
  predicate Near(price: real, level: real, tol: real) {
    AbsReal(price - level) / MaxReal(0.000001, level) <= tol
  }

  /** Near without the division: the distance is at most tol times the guarded level. */
  lemma NearMeaning(price: real, level: real, tol: real)
    ensures Near(price, level, tol) <==> AbsReal(price - level) <= tol * MaxReal(0.000001, level)
  {
    var a, d := AbsReal(price - level), MaxReal(0.000001, level);
    assert a == (a / d) * d;
    if a / d <= tol {
      assert (a / d) * d <= tol * d;
    } else {
      assert (a / d) * d > tol * d;
    }
  }

  datatype Proximity = Proximity(nearR2: bool, nearR3: bool, nearS2: bool, nearS3: bool)

  /** Proximity to the outer levels; a price beyond a level also counts as near it. */
  function ProximityOf(price: real, l: Ladder, tol: real): (f: Proximity)
    ensures f.nearR2 <==> price > l.r2 || AbsReal(price - l.r2) <= tol * MaxReal(0.000001, l.r2)
    ensures f.nearR3 <==> price > l.r3 || AbsReal(price - l.r3) <= tol * MaxReal(0.000001, l.r3)
    ensures f.nearS2 <==> price < l.s2 || AbsReal(price - l.s2) <= tol * MaxReal(0.000001, l.s2)
    ensures f.nearS3 <==> price < l.s3 || AbsReal(price - l.s3) <= tol * MaxReal(0.000001, l.s3)
  {
    NearMeaning(price, l.r2, tol);
    NearMeaning(price, l.r3, tol);
    NearMeaning(price, l.s2, tol);
    NearMeaning(price, l.s3, tol);
    Proximity(Near(price, l.r2, tol) || price > l.r2, Near(price, l.r3, tol) || price > l.r3,
              Near(price, l.s2, tol) || price < l.s2, Near(price, l.s3, tol) || price < l.s3)
  }

  /** A price exactly at a level, or beyond it, is near it. */
  lemma NearAtOrBeyond(price: real, l: Ladder, tol: real)
    requires tol >= 0.0
    ensures var f := ProximityOf(price, l, tol);
      (price >= l.r2 ==> f.nearR2) && (price >= l.r3 ==> f.nearR3)
      && (price <= l.s2 ==> f.nearS2) && (price <= l.s3 ==> f.nearS3)
  {
  }

  /** Overheated near the roof: near R2 or R3 with an up streak of the needed length. */
  predicate ShortZone(f: Proximity, haStreak: int, macdStreak: int, h: Horizon) {
    (f.nearR2 || f.nearR3) && (haStreak >= HaNeed(h) || macdStreak >= MacdNeed(h))
  }

  /** Oversold near the floor: near S2 or S3 with a down streak of the needed length. */
  predicate LongZone(f: Proximity, haStreak: int, macdStreak: int, h: Horizon) {
    (f.nearS2 || f.nearS3) && (haStreak <= -HaNeed(h) || macdStreak <= -MacdNeed(h))
  }

  /** The level reported in the diagnostics. */
  datatype Level = R3 | R2 | S3 | S2 | NoLevel

  /** The first proximity flag set, in the order R3, R2, S3, S2. */
  function NearLevelOf(f: Proximity): (lv: Level)
    ensures lv == R3 <==> f.nearR3
    ensures lv == R2 <==> f.nearR2 && !f.nearR3
    ensures lv == S3 <==> f.nearS3 && !f.nearR3 && !f.nearR2
    ensures lv == S2 <==> f.nearS2 && !f.nearS3 && !f.nearR3 && !f.nearR2
    ensures lv == NoLevel <==> !f.nearR3 && !f.nearR2 && !f.nearS3 && !f.nearS2
  {
    if f.nearR3 then R3
    else if f.nearR2 then R2
    else if f.nearS3 then S3
    else if f.nearS2 then S2
    else NoLevel
  }

  // ---------------------------------------------------------------- Decision

  /** An entry zone (low, high). */
  datatype Zone = Zone(low: real, high: real)

  datatype Plan = Plan(stance: Stance, entry: Zone, target1: real, target2: real, stop: real)

  /** The zone level·(1 - width) .. level·(1 + width). */
  function Band(level: real, width: real): (z: Zone)
    ensures z.low + z.high == 2.0 * level
    ensures z.high - z.low == 2.0 * width * level
    ensures level >= 0.0 && width >= 0.0 ==> z.low <= z.high
  {
    Zone(level * (1.0 - width), level * (1.0 + width))
  }

  /**
   * The stance and its plan. The short zone is tested first, then the long
   * zone; otherwise WAIT still carries a plan oriented by the side of P the
   * price is on.
   */
  function Decide(price: real, l: Ladder, f: Proximity, haStreak: int, macdStreak: int, h: Horizon): (plan: Plan)
    ensures plan.stance == SellShort <==> ShortZone(f, haStreak, macdStreak, h)
    ensures plan.stance == Buy <==> !ShortZone(f, haStreak, macdStreak, h) && LongZone(f, haStreak, macdStreak, h)
    ensures plan.stance == Wait <==> !ShortZone(f, haStreak, macdStreak, h) && !LongZone(f, haStreak, macdStreak, h)
    ensures plan.stance == SellShort && f.nearR3 ==>
      plan == Plan(SellShort, Band(l.r3, 0.003), l.r2, l.p, l.r3 * (1.0 + 1.2 * Tol(h)))
    ensures plan.stance == SellShort && !f.nearR3 ==>
      plan == Plan(SellShort, Band(l.r2, 0.004), (l.p + l.s1) / 2.0, l.s1, l.r2 * (1.0 + 1.5 * Tol(h)))
    ensures plan.stance == Buy && f.nearS3 ==>
      plan == Plan(Buy, Band(l.s3, 0.003), l.s2, l.p, l.s3 * (1.0 - 1.2 * Tol(h)))
    ensures plan.stance == Buy && !f.nearS3 ==>
      plan == Plan(Buy, Band(l.s2, 0.004), (l.p + l.r1) / 2.0, l.r1, l.s2 * (1.0 - 1.5 * Tol(h)))
    ensures plan.stance == Wait && price < l.p ==>
      plan == Plan(Wait, Band(l.s1, 0.004), l.p, l.r1, l.s2 * (1.0 - 1.2 * Tol(h)))
    ensures plan.stance == Wait && price >= l.p ==>
      plan == Plan(Wait, Band(l.r1, 0.004), l.p, l.s1, l.r2 * (1.0 + 1.2 * Tol(h)))
  {
    var tol := Tol(h);
    if ShortZone(f, haStreak, macdStreak, h) then
      if f.nearR3 then
        Plan(SellShort, Band(l.r3, 0.003), l.r2, l.p, l.r3 * (1.0 + 1.2 * tol))
      else
        Plan(SellShort, Band(l.r2, 0.004), (l.p + l.s1) / 2.0, l.s1, l.r2 * (1.0 + 1.5 * tol))
    else if LongZone(f, haStreak, macdStreak, h) then
      if f.nearS3 then
        Plan(Buy, Band(l.s3, 0.003), l.s2, l.p, l.s3 * (1.0 - 1.2 * tol))
      else
        Plan(Buy, Band(l.s2, 0.004), (l.p + l.r1) / 2.0, l.r1, l.s2 * (1.0 - 1.5 * tol))
    else if price < l.p then
      Plan(Wait, Band(l.s1, 0.004), l.p, l.r1, l.s2 * (1.0 - 1.2 * tol))
    else
      Plan(Wait, Band(l.r1, 0.004), l.p, l.s1, l.r2 * (1.0 + 1.2 * tol))
  }

  /** A strictly ordered ladder of positive levels (a period with high > low and a positive floor). */
  predicate PositiveOrdered(l: Ladder) {
    0.0 < l.s3 < l.s2 < l.s1 < l.p < l.r1 < l.r2 < l.r3
  }

  /** The plan expects a fall: both targets below the top of the entry zone, the second beyond the first, the stop above it. */
  predicate FallingPlan(plan: Plan) {
    plan.target2 < plan.target1 < plan.entry.high && plan.entry.low <= plan.entry.high < plan.stop
  }

  /** The plan expects a rise: both targets above the bottom of the entry zone, the second beyond the first, the stop below it. */
  predicate RisingPlan(plan: Plan) {
    plan.stop < plan.entry.low <= plan.entry.high && plan.entry.low < plan.target1 < plan.target2
  }

  /**
   * On a positive, strictly ordered ladder every plan is coherent: SHORT plans
   * and the WAIT plan at or above P expect a fall, BUY plans and the WAIT plan
   * below P expect a rise.
   */
  lemma PlanOriented(price: real, l: Ladder, f: Proximity, haStreak: int, macdStreak: int, h: Horizon)
    requires PositiveOrdered(l)
    ensures var plan := Decide(price, l, f, haStreak, macdStreak, h);
      && (plan.stance == SellShort ==> FallingPlan(plan))
      && (plan.stance == Buy ==> RisingPlan(plan))
      && (plan.stance == Wait ==> if price < l.p then RisingPlan(plan) else FallingPlan(plan))
  {
  }

  /** A price exactly at R3 with an up streak of the needed length is a SHORT from R3. */
  lemma ShortAtR3(l: Ladder, haStreak: int, macdStreak: int, h: Horizon)
    requires haStreak >= HaNeed(h)
    ensures var plan := Decide(l.r3, l, ProximityOf(l.r3, l, Tol(h)), haStreak, macdStreak, h);
      && plan.stance == SellShort
      && plan.entry == Band(l.r3, 0.003)
      && plan.target1 == l.r2 && plan.target2 == l.p
  {
  }

  /**
   * A price exactly at S2, with the smoothed-candle streak short of the need
   * but the MACD streak at -need, is a BUY from S2 through the MACD disjunct
   * (when S2 is not itself within tolerance of S3).
   */
  lemma BuyAtS2ViaMacd(l: Ladder, haStreak: int, h: Horizon)
    requires l.s3 <= l.s2 && !Near(l.s2, l.s3, Tol(h))
    requires -HaNeed(h) < haStreak < HaNeed(h)
    ensures var plan := Decide(l.s2, l, ProximityOf(l.s2, l, Tol(h)), haStreak, -MacdNeed(h), h);
      && plan.stance == Buy
      && plan.entry == Band(l.s2, 0.004)
      && plan.target1 == (l.p + l.r1) / 2.0 && plan.target2 == l.r1
  {
  }

  // ---------------------------------------------------------------- Analysis

  datatype Meta = Meta(price: real, lastDate: Date, frame: Frame, haStreak: int, macdStreak: int,
                       rsi: real, atr: real, nearLevel: Level)

  datatype Decision = Decision(plan: Plan, meta: Meta)

  /** The decision for a history, as a function of its inputs. */
  function DecisionFor(bars: seq<Bar>, macdPositive: seq<bool>, h: Horizon, rsi: real, atr: real): Decision
    requires ValidHistory(bars)
  {
    var last := bars[|bars| - 1];
    var haStreak := StreakOf(UpFlags(bars));
    var macdStreak := StreakOf(macdPositive);
    var pd := PeriodBounds(h, last.date);
    var ladder := SegmentLadder(ReferenceSegment(bars, pd));
    var f := ProximityOf(last.close, ladder, Tol(h));
    Decision(Decide(last.close, ladder, f, haStreak, macdStreak, h),
             Meta(last.close, last.date, pd.frame, haStreak, macdStreak, rsi, atr, NearLevelOf(f)))
  }

  /**
   * The analysis once the bars are in hand: indicators, thresholds, pivots of
   * the previous period, proximity flags and the decision.
   */
  method Analyze(bars: seq<Bar>, macdPositive: seq<bool>, h: Horizon, rsi: real, atr: real)
    returns (d: Decision)
    requires ValidHistory(bars) && |macdPositive| == |bars|
    ensures d == DecisionFor(bars, macdPositive, h, rsi, atr)
  {
    var last := bars[|bars| - 1];
    var lastClose := last.close;
    var ha := HeikinAshi(bars);
    var haStreak := Streak(Greens(ha));
    var macdStreak := Streak(macdPositive);
    var tol := Tol(h);
    var pd := PeriodBounds(h, last.date);
    var prev := ReferenceSegment(bars, pd);
    var piv := SegmentLadder(prev);
    var f := ProximityOf(lastClose, piv, tol);
    var meta := Meta(lastClose, last.date, pd.frame, haStreak, macdStreak, rsi, atr, NearLevelOf(f));
    var plan := Decide(lastClose, piv, f, haStreak, macdStreak, h);
    CandlesDetermined(bars, ha);
    d := Decision(plan, meta);
  }

  /** Every bar has open = high = low = close = x. */
  predicate Flat(bars: seq<Bar>, x: real) {
    forall i :: 0 <= i < |bars| ==> bars[i].open == x && bars[i].high == x && bars[i].low == x && bars[i].close == x
  }

  /** Every smoothed open of a flat history is its price. */
  lemma {:induction false} FlatOpen(bars: seq<Bar>, x: real, i: nat)
    requires Flat(bars, x) && i < |bars|
    ensures HaOpen(bars, i) == x
  {
    if i > 0 {
      FlatOpen(bars, x, i - 1);
    }
  }

  /** A history of only false flags has the negative streak of its whole length. */
  lemma AllFalseStreak(s: seq<bool>)
    requires forall i :: 0 <= i < |s| ==> !s[i]
    ensures StreakOf(s) == -|s|
  {
  }

  /** A segment of flat bars has the degenerate ladder: every level is x. */
  lemma FlatLadder(seg: seq<Bar>, x: real)
    requires |seg| > 0 && Flat(seg, x)
    ensures SegmentLadder(seg) == Ladder(x, x, x, x, x, x, x)
  {
    assert MaxHigh(seg) == x && MinLow(seg) == x;
  }

  /** On the degenerate ladder with every flag set and down streaks of the needed length, the decision is BUY from S3. */
  lemma FlatDecide(x: real, n: int, h: Horizon)
    requires n >= HaNeed(h)
    ensures Decide(x, Ladder(x, x, x, x, x, x, x), Proximity(true, true, true, true), -n, -n, h)
      == Plan(Buy, Band(x, 0.003), x, x, x * (1.0 - 1.2 * Tol(h)))
  {
  }

  /** A flat history never shows a rising smoothed candle. */
  lemma FlatHaStreak(bars: seq<Bar>, x: real)
    requires |bars| > 0 && Flat(bars, x)
    ensures StreakOf(UpFlags(bars)) == -|bars|
  {
    var up := UpFlags(bars);
    forall i | 0 <= i < |bars|
      ensures !up[i]
    {
      FlatOpen(bars, x, i);
    }
    AllFalseStreak(up);
  }

  /** Whatever period is chosen, the pivots of a flat history all sit at its price. */
  lemma FlatSegmentLadder(bars: seq<Bar>, pd: Period, x: real)
    requires |bars| > 0 && Flat(bars, x)
    requires forall i :: 0 <= i < |bars| ==> ValidDate(bars[i].date)
    ensures SegmentLadder(ReferenceSegment(bars, pd)) == Ladder(x, x, x, x, x, x, x)
  {
    var seg := ReferenceSegment(bars, pd);
    forall i | 0 <= i < |seg|
      ensures seg[i].open == x && seg[i].high == x && seg[i].low == x && seg[i].close == x
    {
      assert seg[i] in bars;
    }
    FlatLadder(seg, x);
  }

  /**
   * A flat history (every price x, MACD histogram never positive) has no green
   * smoothed candle, so both streaks are -n; the ladder collapses to x, the
   * price sits on every level, and the long zone fires: BUY from S3 = x, with
   * a zero-width-target plan, while the diagnostics report R3.
   */
  lemma FlatHistoryBuys(bars: seq<Bar>, macdPositive: seq<bool>, h: Horizon, rsi: real, atr: real, x: real)
    requires ValidHistory(bars) && Flat(bars, x) && |bars| >= HaNeed(h)
    requires |macdPositive| == |bars| && forall i :: 0 <= i < |macdPositive| ==> !macdPositive[i]
    ensures var d := DecisionFor(bars, macdPositive, h, rsi, atr);
      && d.plan == Plan(Buy, Band(x, 0.003), x, x, x * (1.0 - 1.2 * Tol(h)))
      && d.meta.haStreak == -|bars| && d.meta.macdStreak == -|bars|
      && d.meta.nearLevel == R3
  {
    FlatHaStreak(bars, x);
    AllFalseStreak(macdPositive);
    var last := bars[|bars| - 1];
    var pd := PeriodBounds(h, last.date);
    FlatSegmentLadder(bars, pd, x);
    var l := Ladder(x, x, x, x, x, x, x);
    var f := ProximityOf(x, l, Tol(h));
    assert f == Proximity(true, true, true, true);
    FlatDecide(x, |bars|, h);
  }
}
