# Signal engine and ticker normaliser — a Dafny model

This project models the decision engine of a small trading-signal service,
together with the ticker normaliser of its market-data client.

The engine looks at a history of daily bars (date, open, high, low, close,
volume). It takes four steps:

- It builds smoothed (Heikin-Ashi) candles and counts the signed streak of
  "up" candles. It counts the signed streak of a positive MACD histogram the
  same way.
- It picks the previous complete period for the horizon: the Monday-to-Sunday
  week for `short`, the calendar month for `mid`, the calendar year for
  `long`. If no bar falls in that period, it uses the last 5, 21 or 252 bars
  instead.
- It computes the Fibonacci pivot ladder P, R1..R3, S1..S3 from that
  segment's highest high, lowest low and last close.
- It decides SHORT, BUY or WAIT from how close the last close is to R2/R3 or
  S2/S3 and how long the streaks are. Each stance comes with an entry zone,
  two targets and a stop.

The normaliser upper-cases and strips a ticker, then prefixes USD-quoted
crypto pairs with `X:`.

Three modules:

- `calendar.dfy` (`Calendar`): civil dates, the proleptic day number
  (0001-01-01 is day 1, as `date.toordinal()`), the weekday (Monday is 0),
  "one day earlier", and the proof that day numbers order dates
  chronologically.
- `core_strategy.dfy` (`CoreStrategy`): the engine.
  - The smoothed candles and the streak counter are imperative methods. The
    candle method fills an `array` in place; the streak method is a
    backward loop with an early exit.
  - Each of these methods is proved against a specification function:
    `HaOpen`/`UpFlags` for the candles, `StreakOf` for the streak.
  - The pivots, period bounds, segment selection, proximity flags and the
    decision are functions.
  - `Analyze` is the pure part of `analyze_ticker`. It is proved equal to
    the specification function `DecisionFor`.
- `polygon_client.dfy` (`PolygonClient`): `_normalize_ticker`.

Prices are exact `real`s. The MACD-histogram sign of every bar, the RSI and
the ATR are inputs.

On a completely flat history of n bars, where every price equals x and the
MACD histogram is never positive, no smoothed candle is green. Both streaks
are therefore −n and every pivot level equals the price. With at least 4, 5
or 6 bars (short, mid, long) the long zone fires and the engine returns BUY
from S3 (`CoreStrategy.FlatHistoryBuys`); a shorter flat history gives WAIT.

## Model

| member | source | states |
|---|---|---|
| Calendar.Ordinal | core_strategy.py:134-135 | The day number of a valid date lies inside its year's range of day numbers. |
| Calendar.OrdinalOrder | core_strategy.py:135 | Comparing day numbers is comparing civil dates: `<` is chronological order and `==` is date equality, in both directions. |
| Calendar.DaysBeforeYearStep | core_strategy.py:102-104 | Year y+1 starts on the day after year y ends; this is the leap rule counted per 4, 100 and 400 years. |
| Calendar.DaysBeforeYearIncreasing | core_strategy.py:102-104 | Every later year starts after the whole of an earlier year. |
| Calendar.DayBefore | core_strategy.py:97-98 | Subtracting one day gives a valid date whose day number is exactly one less. |
| Calendar.Weekday | core_strategy.py:93 | The weekday of a day number is in 0..6. |
| Calendar.WeekdayStep | core_strategy.py:93 | Each next day number has the next weekday, with Sunday (6) followed by Monday (0). |
| Calendar.WeekdayAnchor | core_strategy.py:93 | 2024-01-01 is day 738886 and a Monday (weekday 0), which fixes Monday as 0. |
| CoreStrategy.HaNeed | core_strategy.py:129 | The smoothed-candle streak threshold: 4, 5, 6 for short, mid, long. |
| CoreStrategy.MacdNeed | core_strategy.py:130 | The separate MACD streak threshold: 4, 6, 8 for short, mid, long. |
| CoreStrategy.Tol | core_strategy.py:131 | The proximity tolerance: 0.008, 0.010, 0.012 for short, mid, long. |
| CoreStrategy.FallbackCount | core_strategy.py:138 | The fallback bar count: 5, 21, 252 for week, month, year. |
| CoreStrategy.HaClose | core_strategy.py:49 | The smoothed close is the mean of open, high, low and close. |
| CoreStrategy.HaOpen | core_strategy.py:51-53 | The smoothed open: (open+close)/2 for the first bar, then the mean of the previous smoothed open and close. |
| CoreStrategy.UpFlags | core_strategy.py:54 | One flag per bar, set iff the smoothed close is above the smoothed open. |
| CoreStrategy.HeikinAshi | core_strategy.py:47-55 | There is one candle per bar. The close is the mean of the four prices. The first open is (open+close)/2. Every later open is the mean of the previous open and close. Green holds iff close > open. |
| CoreStrategy.CandleOpenAt | core_strategy.py:51-53 | Any frame that satisfies the recurrence has the open column given by the recursive definition `HaOpen`. |
| CoreStrategy.CandlesDetermined | core_strategy.py:47-55 | The bars determine the green flags: every frame satisfying the recurrence has flags equal to `UpFlags(bars)`. |
| CoreStrategy.RunLength | core_strategy.py:70-75 | It counts the trailing elements equal to a value. The run is maximal: the element before it differs. |
| CoreStrategy.StreakOf | core_strategy.py:65-76 | The streak is 0 on an empty sequence. Otherwise its magnitude is the length of the maximal trailing run (1 up to the length), and it is positive iff the last element is true. |
| CoreStrategy.Streak | core_strategy.py:65-76 | The backward counting loop with its early exit returns exactly `StreakOf`. |
| CoreStrategy.AllFalseStreak | core_strategy.py:65-76 | A sequence of false flags has streak minus its length. |
| CoreStrategy.FibPivots | core_strategy.py:78-87 | 3P = H+L+C and R_k − P = P − S_k. The width R3 − S3 is 2(H−L). H > L gives strict order S3 < … < R3. H == L makes all levels equal. A close inside [L, H] puts S3 ≤ L and H ≤ R3. |
| CoreStrategy.SundayBefore | core_strategy.py:93-94 | Going back weekday+1 days lands on a Sunday 1..7 days earlier, and six days before that is a Monday. |
| CoreStrategy.WeekBefore | core_strategy.py:91-95 | The window is seven days from a Monday to a Sunday, labelled week. It ends 1..7 days before the last date. |
| CoreStrategy.MonthBefore | core_strategy.py:96-100 | The window is the first to the last day of the previous month, labelled month. Its end + 1 is day 1 of the last date's month. |
| CoreStrategy.YearBefore | core_strategy.py:101-105 | The window is Jan 1 to Dec 31 of the previous year, labelled year. Its end + 1 is Jan 1 of the last date's year. |
| CoreStrategy.PeriodBounds | core_strategy.py:89-105 | For every horizon, start ≤ end < last date, with the label week, month or year. |
| CoreStrategy.MonthWindowIsPreviousMonth | core_strategy.py:96-100 | A date falls in the mid window iff it is in the previous calendar month. |
| CoreStrategy.YearWindowIsPreviousYear | core_strategy.py:101-105 | A date falls in the long window iff it is in the previous calendar year. |
| CoreStrategy.FilterKeeps | core_strategy.py:135 | Appending an in-window bar to the history appends it to the filtered bars. |
| CoreStrategy.FilterSkips | core_strategy.py:135 | Appending an out-of-window bar to the history leaves the filtered bars unchanged. |
| CoreStrategy.BarsIn | core_strategy.py:135 | The filter keeps only bars dated inside the window. Every in-window bar is kept exactly as many times as it occurs, and no other bar is kept. When the result is not empty, its last bar is the last in-window bar of the history. |
| CoreStrategy.ReferenceSegment | core_strategy.py:134-139 | The segment is non-empty when the history is. If some bar is in the window, the segment is the in-window bars, each as often as it occurs, and it ends with the last in-window bar, whose close the pivots use. Otherwise it is the last min(N, length) bars, with N = 5/21/252. |
| CoreStrategy.Tail | core_strategy.py:139 | `df.tail(n)`: min(n, length) bars, the i-th of them being the i-th of the last min(n, length) bars of the history. |
| CoreStrategy.SegmentLadder | core_strategy.py:140 | The pivots of a segment from its highest high, lowest low and last close. |
| CoreStrategy.MaxHigh | core_strategy.py:140 | The result is at least every high and equals some bar's high. |
| CoreStrategy.MinLow | core_strategy.py:140 | The result is at most every low and equals some bar's low. |
| CoreStrategy.SegmentLadderOrdered | core_strategy.py:140 | On bars with low ≤ close ≤ high, the segment's ladder is ordered and brackets the segment's range. |
| CoreStrategy.Near | core_strategy.py:143-144 | abs(price − level) / max(1e-6, level) ≤ tol. |
| CoreStrategy.NearMeaning | core_strategy.py:143-144 | `near` is equivalent to abs(price − level) ≤ tol · max(1e-6, level). |
| CoreStrategy.ProximityOf | core_strategy.py:147-150 | A flag for R2/R3 holds iff the price is above the level or near it. A flag for S2/S3 holds iff the price is below the level or near it. |
| CoreStrategy.NearAtOrBeyond | core_strategy.py:143-150 | With tol ≥ 0, a price at a level or beyond it sets that level's flag. |
| CoreStrategy.ShortZone | core_strategy.py:153 | Near R2 or R3, and the candle streak at least HaNeed or the MACD streak at least MacdNeed. |
| CoreStrategy.LongZone | core_strategy.py:152 | Near S2 or S3, and the candle streak at most −HaNeed or the MACD streak at most −MacdNeed. |
| CoreStrategy.NearLevelOf | core_strategy.py:163 | The reported level is the first flag set in the order R3, R2, S3, S2, and "None" iff no flag is set. |
| CoreStrategy.Band | core_strategy.py:174 | The zone is centred on the level with total width 2·width·level. It is ordered when level and width are non-negative. |
| CoreStrategy.Decide | core_strategy.py:152-210 | Exactly one stance: SHORT iff the short zone holds; BUY iff the long zone holds and the short zone does not; WAIT otherwise. Each of the six branches carries its own entry, targets and stop. |
| CoreStrategy.PlanOriented | core_strategy.py:171-210 | On a positive, strictly ordered ladder, SHORT plans and the WAIT plan at or above P expect a fall (targets below the top of the entry zone, stop above it). BUY plans and the WAIT plan below P expect a rise. |
| CoreStrategy.ShortAtR3 | core_strategy.py:147-177 | A price exactly at R3 with an up streak of the needed length is SHORT from R3 with targets R2 and P. |
| CoreStrategy.BuyAtS2ViaMacd | core_strategy.py:149-197 | A price exactly at S2 (not near S3) whose MACD streak reaches −need is BUY from S2, even when the candle streak does not qualify. |
| CoreStrategy.DecisionFor | core_strategy.py:116-210 | The decision as a function of the history: streaks of the up flags and MACD signs, the previous period, the ladder of its segment, the proximity flags, the plan and the diagnostics. |
| CoreStrategy.Analyze | core_strategy.py:116-210 | The analysis of a non-empty, date-ordered history equals `DecisionFor`: the plan and the diagnostics are computed from the streaks, the previous-period ladder and the proximity flags. |
| CoreStrategy.FlatHistoryBuys | core_strategy.py:116-197 | On a flat history at price x with MACD never positive and at least HaNeed bars, both streaks are −n and the reported level is R3. The plan is BUY with entry band(x, 0.003), targets x and x, and stop x·(1 − 1.2·tol). |
| PolygonClient.IsSpace | utils/polygon_client.py:10 | The characters `str.isspace` accepts, which `strip()` removes. |
| PolygonClient.UpperChar | utils/polygon_client.py:10 | A lower-case ASCII letter becomes the upper-case letter at the same position in the alphabet. Any other character is unchanged, so the result is never lower-case and whitespace is preserved. |
| PolygonClient.Upper | utils/polygon_client.py:10 | The length is kept, and each character is upper-cased in place. |
| PolygonClient.SkipSpaces | utils/polygon_client.py:10 | Everything skipped is whitespace, and the character where it stops is not whitespace. |
| PolygonClient.SkipSpacesBack | utils/polygon_client.py:10 | Everything skipped from the end is whitespace, and the character before where it stops is not whitespace. |
| PolygonClient.Strip | utils/polygon_client.py:10 | The result is an infix of the input. Everything removed around it is whitespace, and the result neither starts nor ends with whitespace. |
| PolygonClient.Canonical | utils/polygon_client.py:10 | `t.upper().strip()`. |
| PolygonClient.NeedsCryptoPrefix | utils/polygon_client.py:12 | Ends with "USD", does not start with "X:", and is longer than 3. |
| PolygonClient.NormalizeTicker | utils/polygon_client.py:9-14 | If the canonical form needs the prefix, the result is "X:" + it; otherwise it is the canonical form itself. The length grows by 2 exactly when prefixed. |
| PolygonClient.CanonicalShape | utils/polygon_client.py:10 | The upper-cased, stripped ticker has no lower-case letter and no whitespace at either end. |
| PolygonClient.StripOfTrimmed | utils/polygon_client.py:10 | Stripping a string with no whitespace at either end leaves it unchanged. |
| PolygonClient.CanonicalOfNormal | utils/polygon_client.py:10 | A string already in normal shape is its own canonical form. |
| PolygonClient.PrefixKeepsShape | utils/polygon_client.py:13 | Prefixing "X:" to a non-empty normal-shape string keeps the normal shape. |
| PolygonClient.NormalizedShape | utils/polygon_client.py:9-14 | Every normalised ticker is in normal shape. |
| PolygonClient.PrefixedIsNotPrefixedAgain | utils/polygon_client.py:12 | A string starting with "X:" never needs the prefix. |
| PolygonClient.NormalizeIdempotent | utils/polygon_client.py:9-14 | Normalising twice is normalising once. |
| PolygonClient.NormalizeOfUpper | utils/polygon_client.py:9-14 | A ticker whose upper-cased form is already in normal shape is normalised from that form alone. |
| PolygonClient.NormalizePrefixesCryptoPair | utils/polygon_client.py:11-13 | "btcusd" becomes "X:BTCUSD". |
| PolygonClient.NormalizeKeepsBareUsd | utils/polygon_client.py:12 | "USD" alone is too short for the prefix and stays "USD". |
| PolygonClient.NormalizeKeepsPrefixedPair | utils/polygon_client.py:12-14 | "x:ethusd" becomes "X:ETHUSD" and is not prefixed again. |
| PolygonClient.NormalizeUppercasesStock | utils/polygon_client.py:10-14 | "aapl" becomes "AAPL". |

## Left out

- The indicators `_ema`, `_macd_hist`, `_rsi` and `_atr` (core_strategy.py:28-45, 57-63) are pandas floating-point smoothing. They are not modelled: the MACD-histogram sign of every bar is an input sequence, and RSI and ATR are numbers copied into the diagnostics.
- `fetch_daily` (utils/polygon_client.py:16-46) is not modelled. It does HTTP requests, reads an API key from the environment and reads today's date.
- The start of `analyze_ticker` (core_strategy.py:107-117) is not modelled. It fetches the data, sorts it by date, and raises `StrategyError` for an empty ticker or an empty frame.
  - `Analyze` instead requires a non-empty history already in date order (`ValidHistory`).
- The model takes bars that carry their own date. As the program is wired, `fetch_daily` moves `date` into the frame's index and drops the column (utils/polygon_client.py:44-45). `reset_index(drop=True)` (core_strategy.py:115) then discards that index, so the `df["date"]` lookup at core_strategy.py:117 has no column to read. The model does not reproduce that mismatch.
- PeriodBounds: requires the last date to be in year 2 or later, for every horizon. This is a simplification: in year 1 the previous week or month can exist (0001-01-15 has the week 0001-01-08..14), only the previous year cannot. The source's dates are pandas Timestamps, whose range (years 1677 to 2262) never reaches year 1.
- Dates carry no time of day or time zone. The window filter compares day numbers where the source compares midnight timestamps.
- Prices are exact reals rather than IEEE doubles. The ordering and equality results hold for exact arithmetic and are not claimed bit for bit.
- The `for_diagnostics` flag (core_strategy.py:213-216) changes nothing: both branches return the same dict. The model returns that dict's content as `Decision`, with the last date as a `Date` rather than its string form.
- PolygonClient.Upper: maps ASCII letters only. Python's `str.upper` also maps non-ASCII letters, and some of those mappings change the length (for example 'ß' becomes "SS").
- The presentation layers (app.py, narrator.py) are not part of this model.
