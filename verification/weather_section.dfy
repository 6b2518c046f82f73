/**
 * The weather panel of the TV screen: the per-day summary of the forecast,
 * the forecast window of today and tomorrow, its three-hourly selection,
 * the extended list, and the clamped limits of the chart axes.
 */
module WeatherSection {
  import opened Calendar
  import opened Seqs

  /** One forecast item. */
  datatype Item = Item(time: Instant, temperature: real, humidity: real, weather: string)

  /** One entry of `dailyStats`. */
  datatype DayStats = DayStats(date: Day, minTemp: real, maxTemp: real, weather: string)

  /** Position of the first item dated `d`, or the length when there is none. */
  function First(items: seq<Item>, d: Day): (r: nat)
    ensures r <= |items|
    ensures r < |items| ==> DayOf(items[r].time) == d
    ensures forall i :: 0 <= i < r ==> DayOf(items[i].time) != d
    decreases |items|
  {
    if |items| == 0 then 0
    else if DayOf(items[0].time) == d then 0
    else 1 + First(items[1..], d)
  }

  /** `dailyStats.find(stat => stat.date === dayDate)`, as a position (the length when absent). */
  function IndexOf(stats: seq<DayStats>, d: Day): (r: nat)
    ensures r <= |stats|
    ensures r < |stats| ==> stats[r].date == d
    ensures forall k :: 0 <= k < r ==> stats[k].date != d
    decreases |stats|
  {
    if |stats| == 0 then 0
    else if stats[0].date == d then 0
    else 1 + IndexOf(stats[1..], d)
  }

  /** `Math.min` and `Math.max` on two numbers. */
  function Min(a: real, b: real): real { if b < a then b else a }
  function Max(a: real, b: real): real { if b > a then b else a }

  /** A fresh entry for the first item of a day: `Math.min(Infinity, t) = t`, `Math.max(-Infinity, t) = t`. */
  function NewEntry(it: Item): DayStats
  {
    DayStats(DayOf(it.time), it.temperature, it.temperature, it.weather)
  }

  /** One turn of the `forEach`: extend the day's entry, or push a new one. */
  function Step(stats: seq<DayStats>, it: Item): seq<DayStats>
  {
    var j := IndexOf(stats, DayOf(it.time));
    if j == |stats| then stats + [NewEntry(it)]
    else stats[j := stats[j].(minTemp := Min(stats[j].minTemp, it.temperature),
                              maxTemp := Max(stats[j].maxTemp, it.temperature))]
  }

  /** Some entry is for day `d`. */
  ghost predicate HasEntry(stats: seq<DayStats>, d: Day)
  {
    exists j :: 0 <= j < |stats| && stats[j].date == d
  }

  /** Some item of day `d` has temperature `t`. */
  ghost predicate TakenBy(items: seq<Item>, d: Day, t: real)
  {
    exists i :: 0 <= i < |items| && DayOf(items[i].time) == d && items[i].temperature == t
  }

  /** One entry per distinct day, each day of the items having its entry. */
  ghost predicate OnePerDay(items: seq<Item>, stats: seq<DayStats>)
  {
    && (forall j, k :: 0 <= j < k < |stats| ==> stats[j].date != stats[k].date)
    && (forall i :: 0 <= i < |items| ==> HasEntry(stats, DayOf(items[i].time)))
  }

  /** Entries are days of the items, in the order the days first appear, with the weather of the day's first item. */
  ghost predicate FirstSeenOrder(items: seq<Item>, stats: seq<DayStats>)
  {
    && (forall j :: 0 <= j < |stats| ==>
          First(items, stats[j].date) < |items| && stats[j].weather == items[First(items, stats[j].date)].weather)
    && (forall j, k :: 0 <= j < k < |stats| ==> First(items, stats[j].date) < First(items, stats[k].date))
  }

  /** Each entry's lowest and highest temperature bound the temperatures of its day. */
  ghost predicate Bracketed(items: seq<Item>, stats: seq<DayStats>)
  {
    forall i, j :: 0 <= i < |items| && 0 <= j < |stats| && DayOf(items[i].time) == stats[j].date ==>
      stats[j].minTemp <= items[i].temperature <= stats[j].maxTemp
  }

  /** Each entry's lowest and highest temperature are temperatures of items of its day. */
  ghost predicate Attained(items: seq<Item>, stats: seq<DayStats>)
  {
    forall j :: 0 <= j < |stats| ==>
      TakenBy(items, stats[j].date, stats[j].minTemp) && TakenBy(items, stats[j].date, stats[j].maxTemp)
  }

  /** Loop state: distinct dates, and the entry `dayIdx[i]` of each of the first `n` items brackets its temperature. */
  ghost predicate Indexed(items: seq<Item>, n: nat, stats: seq<DayStats>, dayIdx: seq<nat>)
  {
    && n <= |items| && |dayIdx| == n
    && (forall j, k :: 0 <= j < k < |stats| ==> stats[j].date != stats[k].date)
    && (forall i :: 0 <= i < n ==>
          && dayIdx[i] < |stats| && stats[dayIdx[i]].date == DayOf(items[i].time)
          && stats[dayIdx[i]].minTemp <= items[i].temperature <= stats[dayIdx[i]].maxTemp)
  }

  /** Loop state: `firstAt[j]` is the first item of entry `j`'s day, increasing with `j`. */
  ghost predicate Firsts(items: seq<Item>, n: nat, stats: seq<DayStats>, firstAt: seq<nat>)
  {
    && |firstAt| == |stats|
    && (forall j :: 0 <= j < |stats| ==>
          && firstAt[j] < n <= |items| && DayOf(items[firstAt[j]].time) == stats[j].date
          && stats[j].weather == items[firstAt[j]].weather)
    && (forall j, i :: 0 <= j < |stats| && 0 <= i < firstAt[j] ==> DayOf(items[i].time) != stats[j].date)
    && (forall j, k :: 0 <= j < k < |stats| ==> firstAt[j] < firstAt[k])
  }

  /** Loop state: `minAt[j]` and `maxAt[j]` are items of entry `j`'s day taking its extremes. */
  ghost predicate Extremes(items: seq<Item>, n: nat, stats: seq<DayStats>, minAt: seq<nat>, maxAt: seq<nat>)
  {
    && |minAt| == |stats| && |maxAt| == |stats|
    && (forall j :: 0 <= j < |stats| ==>
          && minAt[j] < n <= |items| && DayOf(items[minAt[j]].time) == stats[j].date
          && items[minAt[j]].temperature == stats[j].minTemp)
    && (forall j :: 0 <= j < |stats| ==>
          && maxAt[j] < n <= |items| && DayOf(items[maxAt[j]].time) == stats[j].date
          && items[maxAt[j]].temperature == stats[j].maxTemp)
  }

  lemma IndexedStep(items: seq<Item>, n: nat, stats: seq<DayStats>, dayIdx: seq<nat>)
    requires Indexed(items, n, stats, dayIdx) && n < |items|
    ensures Indexed(items, n + 1, Step(stats, items[n]), dayIdx + [IndexOf(stats, DayOf(items[n].time))])
  {
    var it := items[n];
    var j := IndexOf(stats, DayOf(it.time));
    var next := Step(stats, it);
    var idx := dayIdx + [j];
    forall i | 0 <= i < n + 1
      ensures idx[i] < |next| && next[idx[i]].date == DayOf(items[i].time)
      ensures next[idx[i]].minTemp <= items[i].temperature <= next[idx[i]].maxTemp
    {
      if i < n && idx[i] != j {
        assert next[idx[i]] == stats[dayIdx[i]];
      }
    }
  }

  /** A day without an entry has no item among the first `n`. */
  lemma NotSeenBefore(items: seq<Item>, n: nat, stats: seq<DayStats>, dayIdx: seq<nat>, d: Day)
    requires Indexed(items, n, stats, dayIdx) && IndexOf(stats, d) == |stats|
    ensures forall i :: 0 <= i < n ==> DayOf(items[i].time) != d
  {
    forall i | 0 <= i < n ensures DayOf(items[i].time) != d {
      assert stats[dayIdx[i]].date == DayOf(items[i].time);
    }
  }

  lemma FirstsAppend(items: seq<Item>, n: nat, stats: seq<DayStats>, firstAt: seq<nat>)
    requires Firsts(items, n, stats, firstAt) && n < |items|
    requires forall i :: 0 <= i < n ==> DayOf(items[i].time) != DayOf(items[n].time)
    ensures Firsts(items, n + 1, stats + [NewEntry(items[n])], firstAt + [n])
  {
  }

  lemma FirstsUpdate(items: seq<Item>, n: nat, stats: seq<DayStats>, firstAt: seq<nat>, j: nat, lo: real, hi: real)
    requires Firsts(items, n, stats, firstAt) && n < |items| && j < |stats|
    ensures Firsts(items, n + 1, stats[j := stats[j].(minTemp := lo, maxTemp := hi)], firstAt)
  {
  }

  lemma FirstsStep(items: seq<Item>, n: nat, stats: seq<DayStats>, dayIdx: seq<nat>, firstAt: seq<nat>)
    returns (firstAt': seq<nat>)
    requires Indexed(items, n, stats, dayIdx) && Firsts(items, n, stats, firstAt) && n < |items|
    ensures Firsts(items, n + 1, Step(stats, items[n]), firstAt')
  {
    var it := items[n];
    var j := IndexOf(stats, DayOf(it.time));
    if j == |stats| {
      NotSeenBefore(items, n, stats, dayIdx, DayOf(it.time));
      FirstsAppend(items, n, stats, firstAt);
      firstAt' := firstAt + [n];
    } else {
      FirstsUpdate(items, n, stats, firstAt, j, Min(stats[j].minTemp, it.temperature), Max(stats[j].maxTemp, it.temperature));
      firstAt' := firstAt;
    }
  }

  lemma ExtremesAppend(items: seq<Item>, n: nat, stats: seq<DayStats>, minAt: seq<nat>, maxAt: seq<nat>)
    requires Extremes(items, n, stats, minAt, maxAt) && n < |items|
    ensures Extremes(items, n + 1, stats + [NewEntry(items[n])], minAt + [n], maxAt + [n])
  {
  }

  lemma ExtremesUpdate(items: seq<Item>, n: nat, stats: seq<DayStats>, minAt: seq<nat>, maxAt: seq<nat>, j: nat)
    requires Extremes(items, n, stats, minAt, maxAt) && n < |items|
    requires j < |stats| && stats[j].date == DayOf(items[n].time)
    ensures var t := items[n].temperature;
            Extremes(items, n + 1,
                     stats[j := stats[j].(minTemp := Min(stats[j].minTemp, t), maxTemp := Max(stats[j].maxTemp, t))],
                     if t < stats[j].minTemp then minAt[j := n] else minAt,
                     if t > stats[j].maxTemp then maxAt[j := n] else maxAt)
  {
  }

  lemma ExtremesStep(items: seq<Item>, n: nat, stats: seq<DayStats>, minAt: seq<nat>, maxAt: seq<nat>)
    returns (minAt': seq<nat>, maxAt': seq<nat>)
    requires Extremes(items, n, stats, minAt, maxAt) && n < |items|
    ensures Extremes(items, n + 1, Step(stats, items[n]), minAt', maxAt')
  {
    var it := items[n];
    var j := IndexOf(stats, DayOf(it.time));
    if j == |stats| {
      ExtremesAppend(items, n, stats, minAt, maxAt);
      minAt', maxAt' := minAt + [n], maxAt + [n];
    } else {
      ExtremesUpdate(items, n, stats, minAt, maxAt, j);
      minAt' := if it.temperature < stats[j].minTemp then minAt[j := n] else minAt;
      maxAt' := if it.temperature > stats[j].maxTemp then maxAt[j := n] else maxAt;
    }
  }

  /** The loop state over all items gives the promised summary. */
  lemma FinishDays(items: seq<Item>, stats: seq<DayStats>, dayIdx: seq<nat>)
    requires Indexed(items, |items|, stats, dayIdx)
    ensures OnePerDay(items, stats) && Bracketed(items, stats)
  {
    forall i | 0 <= i < |items| ensures HasEntry(stats, DayOf(items[i].time)) {
      var j := dayIdx[i];
      assert 0 <= j < |stats| && stats[j].date == DayOf(items[i].time);
    }
    forall i, j | 0 <= i < |items| && 0 <= j < |stats| && DayOf(items[i].time) == stats[j].date
      ensures stats[j].minTemp <= items[i].temperature <= stats[j].maxTemp
    {
      assert dayIdx[i] == j;
    }
  }

  lemma FinishOrder(items: seq<Item>, stats: seq<DayStats>, firstAt: seq<nat>)
    requires Firsts(items, |items|, stats, firstAt)
    ensures FirstSeenOrder(items, stats)
  {
    forall j | 0 <= j < |stats| ensures First(items, stats[j].date) == firstAt[j] {
      var f := First(items, stats[j].date);
      assert f <= firstAt[j];
      assert f >= firstAt[j];
    }
  }

  lemma FinishExtremes(items: seq<Item>, stats: seq<DayStats>, minAt: seq<nat>, maxAt: seq<nat>)
    requires Extremes(items, |items|, stats, minAt, maxAt)
    ensures Attained(items, stats)
  {
    forall j | 0 <= j < |stats|
      ensures TakenBy(items, stats[j].date, stats[j].minTemp) && TakenBy(items, stats[j].date, stats[j].maxTemp)
    {
      var lo, hi := minAt[j], maxAt[j];
      assert 0 <= lo < |items| && DayOf(items[lo].time) == stats[j].date && items[lo].temperature == stats[j].minTemp;
      assert 0 <= hi < |items| && DayOf(items[hi].time) == stats[j].date && items[hi].temperature == stats[j].maxTemp;
    }
  }

  /**
   * `getDailyStats`: walks the items once, extending the entry of the
   * item's day or pushing a new entry for a day not seen before.
   */
  method DailyStats(items: seq<Item>) returns (stats: seq<DayStats>)
    ensures OnePerDay(items, stats)
    ensures FirstSeenOrder(items, stats)
    ensures Bracketed(items, stats)
    ensures Attained(items, stats)
  {
    stats := [];
    ghost var dayIdx: seq<nat> := [];
    ghost var firstAt: seq<nat> := [];
    ghost var minAt: seq<nat> := [];
    ghost var maxAt: seq<nat> := [];
    var n := 0;
    while n < |items|
      invariant Indexed(items, n, stats, dayIdx)
      invariant Firsts(items, n, stats, firstAt)
      invariant Extremes(items, n, stats, minAt, maxAt)
    {
      var it := items[n];
      var j := IndexOf(stats, DayOf(it.time));
      IndexedStep(items, n, stats, dayIdx);
      firstAt := FirstsStep(items, n, stats, dayIdx, firstAt);
      minAt, maxAt := ExtremesStep(items, n, stats, minAt, maxAt);
      dayIdx := dayIdx + [j];
      if j == |stats| {
        stats := stats + [NewEntry(it)];
      } else {
        var s := stats[j];
        stats := stats[j := s.(minTemp := Min(s.minTemp, it.temperature), maxTemp := Max(s.maxTemp, it.temperature))];
      }
      n := n + 1;
    }
    FinishDays(items, stats, dayIdx);
    FinishOrder(items, stats, firstAt);
    FinishExtremes(items, stats, minAt, maxAt);
  }

  /** Three hours in milliseconds. */
  const THREE_HOURS: int := 10_800_000

  /** An item dated today or tomorrow. */
  predicate InWindow(today: Day, it: Item)
  {
    DayOf(it.time) == today || DayOf(it.time) == today + 1
  }

  /** `filteredWeatherData`: the items dated today or tomorrow, in their order. */
  function Window(items: seq<Item>, today: Day): (r: seq<Item>)
    ensures forall i :: 0 <= i < |r| ==> r[i] in items && InWindow(today, r[i])
    ensures forall i :: 0 <= i < |items| && InWindow(today, items[i]) ==> items[i] in r
  {
    var r := Filter(items, it => InWindow(today, it));
    assert |r| > 0 ==> InWindow(today, r[0]);
    r
  }

  /** The window keeps the forecast's order: the window of two batches is the windows one after the other. */
  lemma WindowAppend(a: seq<Item>, b: seq<Item>, today: Day)
    ensures Window(a + b, today) == Window(a, today) + Window(b, today)
  {
    FilterAppend(a, b, it => InWindow(today, it));
  }

  /** An item whose offset from the current hour is a whole number of three-hour steps. */
  predicate OnThreeHourGrid(now: Instant, it: Item)
  {
    (it.time - StartOfHour(now)) % THREE_HOURS == 0
  }

  /**
   * `filteredDataEvery3Hours`: the window's items a multiple of three hours
   * away from the current hour (before or after it), at most nine of them.
   * JavaScript's remainder keeps the sign of the offset, but it is zero
   * exactly when Dafny's is.
   */
  function Every3Hours(window: seq<Item>, now: Instant): (r: seq<Item>)
    ensures |r| <= 9
    ensures r <= Filter(window, it => OnThreeHourGrid(now, it))
    ensures forall i :: 0 <= i < |r| ==> r[i] in window && OnThreeHourGrid(now, r[i])
  {
    var grid := Filter(window, it => OnThreeHourGrid(now, it));
    var r := Take(grid, 9);
    assert forall i :: 0 <= i < |r| ==> r[i] == grid[i];
    r
  }

  /** Nine grid items are kept even when more are available; fewer are all kept. */
  lemma Every3HoursKeepsFirstNine(window: seq<Item>, now: Instant)
    ensures var grid := Filter(window, it => OnThreeHourGrid(now, it));
            |Every3Hours(window, now)| == if |grid| < 9 then |grid| else 9
  {
  }

  /** An item later than the last millisecond of today. */
  predicate AfterToday(now: Instant, it: Item)
  {
    it.time > EndOfDay(DayOf(now))
  }

  /**
   * `extendedFilteredData`: the three-hourly list, then the window's items
   * after the last millisecond of today: every such item and nothing else.
   */
  function Extended(window: seq<Item>, now: Instant): (r: seq<Item>)
    ensures |Every3Hours(window, now)| <= |r|
    ensures r[..|Every3Hours(window, now)|] == Every3Hours(window, now)
    ensures forall i :: |Every3Hours(window, now)| <= i < |r| ==>
              r[i] in window && AfterToday(now, r[i])
    ensures forall j :: 0 <= j < |window| && AfterToday(now, window[j]) ==>
              window[j] in r[|Every3Hours(window, now)|..]
  {
    var head := Every3Hours(window, now);
    var tail := Filter(window, it => AfterToday(now, it));
    assert (head + tail)[..|head|] == head && (head + tail)[|head|..] == tail;
    head + tail
  }

  /**
   * The extended list starts with the three-hourly list, and what follows
   * it is exactly the window's items dated tomorrow.
   */
  lemma ExtendedTail(items: seq<Item>, now: Instant)
    ensures var w := Window(items, DayOf(now));
            var r := Extended(w, now);
            && r[..|Every3Hours(w, now)|] == Every3Hours(w, now)
            && (forall i :: |Every3Hours(w, now)| <= i < |r| ==> r[i] in w && DayOf(r[i].time) == DayOf(now) + 1)
            && (forall j :: 0 <= j < |items| && DayOf(items[j].time) == DayOf(now) + 1 ==>
                  items[j] in r[|Every3Hours(w, now)|..])
  {
    var w := Window(items, DayOf(now));
    var head := Every3Hours(w, now);
    var tail := Filter(w, it => AfterToday(now, it));
    var r := Extended(w, now);
    assert r == head + tail;
    forall i | |head| <= i < |r| ensures r[i] in w && DayOf(r[i].time) == DayOf(now) + 1 {
      assert r[i] == tail[i - |head|];
      assert InWindow(DayOf(now), r[i]);
    }
    assert r[|head|..] == tail;
    forall j | 0 <= j < |items| && DayOf(items[j].time) == DayOf(now) + 1
      ensures items[j] in tail
    {
      assert InWindow(DayOf(now), items[j]);
      assert items[j] in w;
    }
  }

  /** A number or one of the two infinities, for `Math.min` and `Math.max` of an empty list. */
  datatype ExtReal = NegInf | Fin(v: real) | PosInf

  /** `Math.min(...values)`: `Infinity` when there are none. */
  function Lowest(values: seq<real>): (r: ExtReal)
    ensures |values| == 0 <==> r == PosInf
    ensures |values| > 0 ==> r.Fin?
    ensures r.Fin? ==> (forall i :: 0 <= i < |values| ==> r.v <= values[i]) && r.v in values
  {
    if |values| == 0 then PosInf
    else
      var rest := Lowest(values[1..]);
      if rest.Fin? && rest.v < values[0] then Fin(rest.v) else Fin(values[0])
  }

  /** `Math.max(...values)`: `-Infinity` when there are none. */
  function Highest(values: seq<real>): (r: ExtReal)
    ensures |values| == 0 <==> r == NegInf
    ensures |values| > 0 ==> r.Fin?
    ensures r.Fin? ==> (forall i :: 0 <= i < |values| ==> values[i] <= r.v) && r.v in values
  {
    if |values| == 0 then NegInf
    else
      var rest := Highest(values[1..]);
      if rest.Fin? && rest.v > values[0] then Fin(rest.v) else Fin(values[0])
  }

  /** `Math.max(x + d, bound)` with `x` possibly infinite. */
  function FloorAt(x: ExtReal, d: real, bound: real): ExtReal
  {
    match x
    case NegInf => Fin(bound)
    case PosInf => PosInf
    case Fin(v) => Fin(if v + d > bound then v + d else bound)
  }

  /** `Math.min(x + d, bound)` with `x` possibly infinite. */
  function CeilAt(x: ExtReal, d: real, bound: real): ExtReal
  {
    match x
    case NegInf => NegInf
    case PosInf => Fin(bound)
    case Fin(v) => Fin(if v + d < bound then v + d else bound)
  }

  /** Axis limits of a chart. */
  datatype Limits = Limits(minY: ExtReal, maxY: ExtReal)

  /**
   * `b` is `Math.max(min - 3, lo)` for the smallest of `values`: never below
   * `lo`, three below some value unless it is `lo`, at least three below
   * every value unless it is `lo`, and `lo` only when some value is within
   * three of `lo` or under it.
   */
  ghost predicate IsBottom(values: seq<real>, lo: real, b: real)
  {
    && lo <= b
    && (b == lo || exists i :: 0 <= i < |values| && b == values[i] - 3.0)
    && (forall i :: 0 <= i < |values| ==> b <= values[i] - 3.0 || b == lo)
    && (b == lo ==> exists i :: 0 <= i < |values| && values[i] - 3.0 <= lo)
  }

  /** `t` is `Math.min(max + 3, hi)` for the largest of `values`, stated as for `IsBottom`. */
  ghost predicate IsTop(values: seq<real>, hi: real, t: real)
  {
    && t <= hi
    && (t == hi || exists i :: 0 <= i < |values| && t == values[i] + 3.0)
    && (forall i :: 0 <= i < |values| ==> values[i] + 3.0 <= t || t == hi)
    && (t == hi ==> exists i :: 0 <= i < |values| && hi <= values[i] + 3.0)
  }

  /**
   * `minY = Math.max(min - 3, lo)` and `maxY = Math.min(max + 3, hi)`: a
   * margin of three below the lowest and above the highest value, clamped
   * to `[lo, hi]`.  With no values, `minY` is `Infinity` and `maxY` is
   * `-Infinity`.
   */
  function AxisLimits(values: seq<real>, lo: real, hi: real): (r: Limits)
    ensures |values| == 0 ==> r == Limits(PosInf, NegInf)
    ensures |values| > 0 ==>
              && r.minY.Fin? && r.maxY.Fin?
              && IsBottom(values, lo, r.minY.v)
              && IsTop(values, hi, r.maxY.v)
  {
    Limits(FloorAt(Lowest(values), -3.0, lo), CeilAt(Highest(values), 3.0, hi))
  }

  /**
   * Given the smallest value `m` and the largest `M`, the limits are
   * exactly `max(m - 3, lo)` and `min(M + 3, hi)`.
   */
  lemma AxisFromExtremes(values: seq<real>, lo: real, hi: real, m: real, M: real)
    requires m in values && forall i :: 0 <= i < |values| ==> m <= values[i]
    requires M in values && forall i :: 0 <= i < |values| ==> values[i] <= M
    ensures AxisLimits(values, lo, hi).minY == Fin(if m - 3.0 > lo then m - 3.0 else lo)
    ensures AxisLimits(values, lo, hi).maxY == Fin(if M + 3.0 < hi then M + 3.0 else hi)
  {
    var r := AxisLimits(values, lo, hi);
    var a :| 0 <= a < |values| && values[a] == m;
    var z :| 0 <= z < |values| && values[z] == M;
    assert r.minY.v <= values[a] - 3.0 || r.minY.v == lo;
    assert values[z] + 3.0 <= r.maxY.v || r.maxY.v == hi;
  }

  /** A single reading of 20 degrees gives the axis 17 to 23. */
  lemma OneReadingAxis()
    ensures AxisLimits([20.0], -30.0, 40.0) == Limits(Fin(17.0), Fin(23.0))
  {
    AxisFromExtremes([20.0], -30.0, 40.0, 20.0, 20.0);
  }

  /** Every value inside the clamp range is drawn inside the axis. */
  lemma ValuesInsideAxis(values: seq<real>, lo: real, hi: real, i: nat)
    requires i < |values| && lo <= values[i] <= hi
    ensures var r := AxisLimits(values, lo, hi);
            r.minY.Fin? && r.maxY.Fin? && r.minY.v <= values[i] <= r.maxY.v
  {
  }

  /** Values all above `hi + 3` give a bottom above the top: the axis is upside down. */
  lemma AxisCanInvert(values: seq<real>, lo: real, hi: real)
    requires |values| > 0 && lo <= hi
    requires forall i :: 0 <= i < |values| ==> values[i] > hi + 3.0
    ensures AxisLimits(values, lo, hi).minY.v > AxisLimits(values, lo, hi).maxY.v
  {
  }

  /** The temperatures, then the humidities, of the extended list. */
  function Temperatures(items: seq<Item>): (r: seq<real>)
    ensures |r| == |items| && forall i :: 0 <= i < |r| ==> r[i] == items[i].temperature
  {
    seq(|items|, i requires 0 <= i < |items| => items[i].temperature)
  }

  function Humidities(items: seq<Item>): (r: seq<real>)
    ensures |r| == |items| && forall i :: 0 <= i < |r| ==> r[i] == items[i].humidity
  {
    seq(|items|, i requires 0 <= i < |items| => items[i].humidity)
  }

  /** `calculateTemperatureYAxisLimits`: clamped to -30 to 40 degrees. */
  function TemperatureAxis(extended: seq<Item>): (r: Limits)
    ensures |extended| > 0 ==>
              && r.minY.Fin? && r.maxY.Fin? && -30.0 <= r.minY.v && r.maxY.v <= 40.0
              && IsBottom(Temperatures(extended), -30.0, r.minY.v)
              && IsTop(Temperatures(extended), 40.0, r.maxY.v)
  {
    AxisLimits(Temperatures(extended), -30.0, 40.0)
  }

  /** `calculateHumidityYAxisLimits`: clamped to 0 to 100 per cent. */
  function HumidityAxis(extended: seq<Item>): (r: Limits)
    ensures |extended| > 0 ==>
              && r.minY.Fin? && r.maxY.Fin? && 0.0 <= r.minY.v && r.maxY.v <= 100.0
              && IsBottom(Humidities(extended), 0.0, r.minY.v)
              && IsTop(Humidities(extended), 100.0, r.maxY.v)
  {
    AxisLimits(Humidities(extended), 0.0, 100.0)
  }
}
