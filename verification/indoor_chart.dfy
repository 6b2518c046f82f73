/**
 * The indoor/outdoor comparison chart of the dashboard home page: one row
 * per indoor humidity sample, the indoor temperature taken from the sample
 * at the same position, the outdoor values from the forecast item at the
 * same instant, and the rows sorted by time.
 */
module IndoorChart {
  import opened Options
  import opened Calendar
  import WeatherSection

  /** An indoor humidity sample. */
  datatype HumidSample = HumidSample(time: Instant, humidity: real)

  /** An indoor temperature sample. */
  datatype TempSample = TempSample(time: Instant, temperature: real)

  /** One row of `combinedData`; `None` is `null`. */
  datatype Row = Row(
    time: Instant,
    humidityIndoor: real,
    temperatureIndoor: Option<real>,
    humidityOutdoor: Option<real>,
    temperatureOutdoor: Option<real>)

  /** `x || null` for a number: zero is falsy and becomes `null`. */
  function OrNull(x: real): (r: Option<real>)
    ensures r.None? <==> x == 0.0
    ensures r.Some? ==> r.value == x
  {
    if x == 0.0 then None else Some(x)
  }

  /** `weatherData.find(weather => weather.time === time)`, as a position (the length when absent). */
  function FindAt(weather: seq<WeatherSection.Item>, t: Instant): (k: nat)
    ensures k <= |weather|
    ensures k < |weather| ==> weather[k].time == t
    ensures forall i :: 0 <= i < k ==> weather[i].time != t
    decreases |weather|
  {
    if |weather| == 0 then 0
    else if weather[0].time == t then 0
    else 1 + FindAt(weather[1..], t)
  }

  /** The row built for the `i`-th humidity sample. */
  function RowAt(humid: seq<HumidSample>, temp: seq<TempSample>, weather: seq<WeatherSection.Item>, i: nat): Row
    requires i < |humid|
  {
    var h := humid[i];
    var k := FindAt(weather, h.time);
    Row(h.time, h.humidity,
        if i < |temp| then OrNull(temp[i].temperature) else None,
        if k < |weather| then OrNull(weather[k].humidity) else None,
        if k < |weather| then OrNull(weather[k].temperature) else None)
  }

  /**
   * `combinedData` before sorting: one row per humidity sample, in the
   * samples' order.  The indoor temperature is the one at the same index,
   * whatever its time; the outdoor values come from the first forecast item
   * at exactly the sample's instant, and are `null` when there is none.
   */
  function Join(humid: seq<HumidSample>, temp: seq<TempSample>, weather: seq<WeatherSection.Item>): (r: seq<Row>)
    ensures |r| == |humid|
    ensures forall i :: 0 <= i < |r| ==>
              && r[i].time == humid[i].time && r[i].humidityIndoor == humid[i].humidity
              && (r[i].temperatureIndoor.Some? <==> i < |temp| && temp[i].temperature != 0.0)
              && (r[i].temperatureIndoor.Some? ==> r[i].temperatureIndoor.value == temp[i].temperature)
    ensures forall i :: 0 <= i < |r| ==>
              ((forall k :: 0 <= k < |weather| ==> weather[k].time != humid[i].time) ==>
                 r[i].humidityOutdoor.None? && r[i].temperatureOutdoor.None?)
    ensures forall i, k :: 0 <= i < |r| && 0 <= k < |weather| && weather[k].time == humid[i].time ==>
              ((forall m :: 0 <= m < k ==> weather[m].time != humid[i].time) ==>
                 r[i].humidityOutdoor == OrNull(weather[k].humidity)
                 && r[i].temperatureOutdoor == OrNull(weather[k].temperature))
  {
    var r := seq(|humid|, i requires 0 <= i < |humid| => RowAt(humid, temp, weather, i));
    assert forall i, k :: 0 <= i < |r| && 0 <= k < |weather| && weather[k].time == humid[i].time ==>
              ((forall m :: 0 <= m < k ==> weather[m].time != humid[i].time) ==> FindAt(weather, humid[i].time) == k);
    r
  }

  /** Rows in ascending order of time. */
  ghost predicate Sorted(rows: seq<Row>)
  {
    forall i, j :: 0 <= i < j < |rows| ==> rows[i].time <= rows[j].time
  }

  /** `x` placed after every row not later than it. */
  function Insert(rows: seq<Row>, x: Row): seq<Row>
  {
    if |rows| == 0 then [x]
    else if x.time < rows[0].time then [x] + rows
    else [rows[0]] + Insert(rows[1..], x)
  }

  /** `combinedData.sort((a, b) => a.time - b.time)`: an insertion sort. */
  function Sort(rows: seq<Row>): seq<Row>
  {
    if |rows| == 0 then [] else Insert(Sort(rows[..|rows| - 1]), rows[|rows| - 1])
  }

  /** Inserting adds exactly one copy of `x` and loses nothing. */
  lemma {:induction false} InsertPerm(rows: seq<Row>, x: Row)
    ensures multiset(Insert(rows, x)) == multiset(rows) + multiset{x}
  {
    if |rows| > 0 && x.time >= rows[0].time {
      InsertPerm(rows[1..], x);
      assert rows == [rows[0]] + rows[1..];
    }
  }

  /** Inserting into sorted rows keeps them sorted. */
  lemma {:induction false} InsertSorted(rows: seq<Row>, x: Row)
    requires Sorted(rows)
    ensures Sorted(Insert(rows, x))
  {
    if |rows| > 0 && x.time >= rows[0].time {
      var tail := Insert(rows[1..], x);
      assert Sorted(tail) by {
        assert Sorted(rows[1..]);
        InsertSorted(rows[1..], x);
      }
      assert forall j :: 0 <= j < |tail| ==> rows[0].time <= tail[j].time by {
        InsertPerm(rows[1..], x);
        forall j | 0 <= j < |tail| ensures rows[0].time <= tail[j].time {
          assert tail[j] in multiset(rows[1..]) + multiset{x};
        }
      }
      assert Insert(rows, x) == [rows[0]] + tail;
    }
  }

  /** The sort returns the same rows, in ascending order of time. */
  lemma {:induction false} SortFacts(rows: seq<Row>)
    ensures Sorted(Sort(rows))
    ensures multiset(Sort(rows)) == multiset(rows)
  {
    if |rows| > 0 {
      var init, last := rows[..|rows| - 1], rows[|rows| - 1];
      SortFacts(init);
      InsertSorted(Sort(init), last);
      InsertPerm(Sort(init), last);
      assert rows == init + [last];
    }
  }

  /** Rows already in order come back unchanged. */
  lemma {:induction false} SortSorted(rows: seq<Row>)
    requires Sorted(rows)
    ensures Sort(rows) == rows
    decreases |rows|
  {
    if |rows| > 0 {
      var init, last := rows[..|rows| - 1], rows[|rows| - 1];
      assert Sorted(init) by {
        assert forall i :: 0 <= i < |init| ==> init[i] == rows[i];
      }
      assert Insert(Sort(init), last) == rows by {
        SortSorted(init);
        InsertLast(init, last);
        assert init + [last] == rows;
      }
    }
  }

  /** A row not earlier than every row goes last. */
  lemma {:induction false} InsertLast(rows: seq<Row>, x: Row)
    requires forall i :: 0 <= i < |rows| ==> rows[i].time <= x.time
    ensures Insert(rows, x) == rows + [x]
    decreases |rows|
  {
    if |rows| > 0 {
      InsertLast(rows[1..], x);
      assert rows == [rows[0]] + rows[1..];
    }
  }

  /** The rows the chart draws: one per humidity sample, sorted by time. */
  function CombinedData(humid: seq<HumidSample>, temp: seq<TempSample>, weather: seq<WeatherSection.Item>): (r: seq<Row>)
    ensures |r| == |humid|
    ensures Sorted(r)
    ensures multiset(r) == multiset(Join(humid, temp, weather))
  {
    var r := Sort(Join(humid, temp, weather));
    SortFacts(Join(humid, temp, weather));
    assert |r| == |multiset(r)| == |multiset(Join(humid, temp, weather))|;
    r
  }

  /** Every humidity sample has its row in the chart, at its own time. */
  lemma EverySampleDrawn(humid: seq<HumidSample>, temp: seq<TempSample>, weather: seq<WeatherSection.Item>, i: nat)
    requires i < |humid|
    ensures exists j :: 0 <= j < |humid| && CombinedData(humid, temp, weather)[j] == Join(humid, temp, weather)[i]
  {
    var joined := Join(humid, temp, weather);
    var r := CombinedData(humid, temp, weather);
    assert joined[i] in multiset(joined);
    assert joined[i] in multiset(r);
    var j :| 0 <= j < |r| && r[j] == joined[i];
  }

  /**
   * The loading flag after the data changes: it clears once humidity,
   * temperature and forecast are all non-empty, and nothing sets it again.
   */
  function Loading(loading: bool, humid: seq<HumidSample>, temp: seq<TempSample>, weather: seq<WeatherSection.Item>): (r: bool)
    ensures !r <==> !loading || (|humid| > 0 && |temp| > 0 && |weather| > 0)
  {
    if |humid| > 0 && |temp| > 0 && |weather| > 0 then false else loading
  }

  /** The state the chart component sees: the loading flag and the three data lists. */
  datatype Feed = Feed(humid: seq<HumidSample>, temp: seq<TempSample>, weather: seq<WeatherSection.Item>)

  /** The flag after a series of data updates, starting from `true`. */
  function LoadingAfter(feeds: seq<Feed>): bool
  {
    if |feeds| == 0 then true
    else
      var f := feeds[|feeds| - 1];
      Loading(LoadingAfter(feeds[..|feeds| - 1]), f.humid, f.temp, f.weather)
  }

  /** The chart is still loading exactly when no update so far had all three lists non-empty. */
  lemma {:induction false} LoadingIff(feeds: seq<Feed>)
    ensures LoadingAfter(feeds) <==>
              forall k :: 0 <= k < |feeds| ==>
                |feeds[k].humid| == 0 || |feeds[k].temp| == 0 || |feeds[k].weather| == 0
    decreases |feeds|
  {
    if |feeds| > 0 {
      var init := feeds[..|feeds| - 1];
      LoadingIff(init);
      assert forall k :: 0 <= k < |init| ==> init[k] == feeds[k];
    }
  }

  /** What the component renders: nothing while loading, else the sorted rows. */
  function Render(loading: bool, humid: seq<HumidSample>, temp: seq<TempSample>, weather: seq<WeatherSection.Item>): (r: Option<seq<Row>>)
    ensures r.None? <==> loading
    ensures r.Some? ==> |r.value| == |humid| && Sorted(r.value) && multiset(r.value) == multiset(Join(humid, temp, weather))
  {
    if loading then None else Some(CombinedData(humid, temp, weather))
  }
}
