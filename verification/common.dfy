/** Optional values, standing in for JavaScript's `undefined` / `null`. */
module Options {

  datatype Option<+T> = None | Some(value: T)

  /** JavaScript truthiness of an optional string: absent and "" are both falsy. */
  predicate Present(o: Option<string>)
  {
    o.Some? && o.value != ""
  }

  /** `o || fallback` for an optional string. */
  function OrElse(o: Option<string>, fallback: string): (r: string)
    ensures Present(o) ==> r == o.value
    ensures !Present(o) ==> r == fallback
  {
    if Present(o) then o.value else fallback
  }
}

/**
 * Instants and calendar days.  An instant is a number of milliseconds, as
 * returned by `Date.getTime()`; a day is a whole number of days since the
 * epoch in local time.  Local time is taken to be a fixed offset from the
 * epoch, so every day is exactly 24 hours long.
 */
module Calendar {

  type Instant = int
  type Day = int

  // Written as literals so that the solver sees linear arithmetic.
  const MINUTE: int := 60_000
  const HOUR: int := 3_600_000
  const DAY: int := 86_400_000

  /** Midnight at the start of day `d`. */
  function DayStart(d: Day): Instant
  {
    d * 86_400_000
  }

  /** The instant `hour`:00:00.000 on day `d`. */
  function At(d: Day, hour: int): Instant
  {
    DayStart(d) + hour * 3_600_000
  }

  /** The calendar day an instant falls on (`toDateString`). */
  function DayOf(t: Instant): (d: Day)
    ensures DayStart(d) <= t < DayStart(d + 1)
  {
    t / DAY
  }

  /** Last millisecond of day `d` (`setHours(23, 59, 59, 999)`). */
  function EndOfDay(d: Day): (t: Instant)
    ensures DayOf(t) == d
    ensures DayOf(t + 1) == d + 1
  {
    DayStart(d + 1) - 1
  }

  /** The start of the hour an instant falls in (`setMinutes(0, 0, 0)`). */
  function StartOfHour(t: Instant): (h: Instant)
    ensures h <= t < h + HOUR
    ensures h % HOUR == 0
  {
    t - t % HOUR
  }

  /** Day of the week, 0 = Sunday; day 0 (1 January 1970) was a Thursday. */
  function Weekday(d: Day): (w: int)
    ensures 0 <= w < 7
  {
    (d + 4) % 7
  }

  /**
   * The Sunday that starts the week containing `d`: the week start of the
   * default English locale.
   */
  function StartOfWeek(d: Day): (w: Day)
    ensures w <= d < w + 7
    ensures Weekday(w) == 0
  {
    d - Weekday(d)
  }

  /** Every day of a week has the same week start. */
  lemma SameWeek(d: Day, k: int)
    requires 0 <= k < 7
    ensures StartOfWeek(StartOfWeek(d) + k) == StartOfWeek(d)
  {
  }
}

/** Order-preserving filtering and other sequence helpers used throughout. */
module Seqs {

  /** `s.filter(p)`. */
  function Filter<T>(s: seq<T>, p: T -> bool): (r: seq<T>)
    ensures |r| <= |s|
    ensures forall i :: 0 <= i < |r| ==> r[i] in s && p(r[i])
    ensures forall i :: 0 <= i < |s| && p(s[i]) ==> s[i] in r
  {
    if |s| == 0 then [] else (if p(s[0]) then [s[0]] else []) + Filter(s[1..], p)
  }

  /** Filtering distributes over concatenation, so it keeps the input order. */
  lemma {:induction false} FilterAppend<T>(s: seq<T>, t: seq<T>, p: T -> bool)
    ensures Filter(s + t, p) == Filter(s, p) + Filter(t, p)
  {
    if |s| == 0 {
      assert s + t == t;
    } else {
      assert (s + t)[1..] == s[1..] + t;
      FilterAppend(s[1..], t, p);
    }
  }

  /** A filter keeps everything when every element passes. */
  lemma {:induction false} FilterAll<T>(s: seq<T>, p: T -> bool)
    requires forall i :: 0 <= i < |s| ==> p(s[i])
    ensures Filter(s, p) == s
  {
    if |s| > 0 {
      FilterAll(s[1..], p);
    }
  }

  /** `s.slice(0, n)`. */
  function Take<T>(s: seq<T>, n: nat): (r: seq<T>)
    ensures |r| == if n < |s| then n else |s|
    ensures r <= s
  {
    if n < |s| then s[..n] else s
  }

  /** `s.split(sep)[0]`: the text before the first occurrence of `sep`. */
  function BeforeFirst(s: string, sep: char): (r: string)
    ensures r <= s
    ensures sep !in r
    ensures |r| < |s| ==> s[|r|] == sep
  {
    if |s| == 0 || s[0] == sep then [] else [s[0]] + BeforeFirst(s[1..], sep)
  }

  /**
   * A prefix free of `sep` and followed by `sep` (or by the end of the text)
   * is exactly what the split keeps.
   */
  lemma {:induction false} BeforeFirstAt(s: string, sep: char, k: nat)
    requires k <= |s| && sep !in s[..k]
    requires k == |s| || s[k] == sep
    ensures BeforeFirst(s, sep) == s[..k]
  {
    if k > 0 {
      assert s[0] in s[..k];
      assert s[1..][..k - 1] == s[1..k];
      assert forall c :: c in s[1..k] ==> c in s[..k];
      BeforeFirstAt(s[1..], sep, k - 1);
    }
  }
}
