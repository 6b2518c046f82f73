/**
 * The booking analysis of the dashboard: room bookings counted per room,
 * keyed by the room letter (or "Unknown"), in the order the rooms first
 * appear, and turned into one chart entry per room.
 */
module BookingAnalysis {
  import opened Options
  import opened Seqs

  /** The part of a stored room booking the analysis reads: its room, which may be absent or empty. */
  datatype Record = Record(room: Option<string>)

  /** One key of `roomStats` with its count. */
  datatype Entry = Entry(key: string, count: nat)

  /** One slice of the pie chart. */
  datatype ChartEntry = ChartEntry(name: string, value: nat)

  /** `booking.room || "Unknown"`. */
  function RoomKey(b: Record): (k: string)
    ensures Present(b.room) ==> k == b.room.value
    ensures !Present(b.room) ==> k == "Unknown"
  {
    OrElse(b.room, "Unknown")
  }

  /** The keys of the counting object, in insertion order (`Object.entries`). */
  function Keys(es: seq<Entry>): (ks: seq<string>)
    ensures |ks| == |es|
  {
    seq(|es|, i requires 0 <= i < |es| => es[i].key)
  }

  ghost predicate DistinctKeys(es: seq<Entry>)
  {
    forall i, j :: 0 <= i < j < |es| ==> es[i].key != es[j].key
  }

  /** The count stored under `k`, or 0 when `k` is not a key (`roomStats[room] || 0`). */
  function CountOf(es: seq<Entry>, k: string): nat
  {
    if |es| == 0 then 0 else if es[0].key == k then es[0].count else CountOf(es[1..], k)
  }

  function Sum(es: seq<Entry>): nat
  {
    if |es| == 0 then 0 else es[0].count + Sum(es[1..])
  }

  /** `roomStats[room] = (roomStats[room] || 0) + 1`. */
  function Bump(es: seq<Entry>, k: string): seq<Entry>
  {
    if |es| == 0 then [Entry(k, 1)]
    else if es[0].key == k then [Entry(k, es[0].count + 1)] + es[1..]
    else [es[0]] + Bump(es[1..], k)
  }

  /** The `forEach` over the bookings: one `Bump` per booking, in order. */
  function Tally(bs: seq<Record>): seq<Entry>
  {
    if |bs| == 0 then [] else Bump(Tally(bs[..|bs| - 1]), RoomKey(bs[|bs| - 1]))
  }

  /** The number of bookings counted under `k`: an independent count by filtering. */
  function Occurrences(bs: seq<Record>, k: string): nat
  {
    |Filter(bs, b => RoomKey(b) == k)|
  }

  /** One increment keeps the key order: a present key keeps its place, a new key goes last. */
  lemma {:induction false} BumpKeys(es: seq<Entry>, k: string)
    ensures Keys(Bump(es, k)) == if k in Keys(es) then Keys(es) else Keys(es) + [k]
  {
    var r := Bump(es, k);
    if |es| == 0 {
      assert Keys(r) == [k];
    } else if es[0].key == k {
      assert Keys(r) == Keys(es);
      assert Keys(es)[0] == k;
    } else {
      var tail := es[1..];
      BumpKeys(tail, k);
      assert Keys(r) == [es[0].key] + Keys(Bump(tail, k));
      assert Keys(es) == [es[0].key] + Keys(tail);
    }
  }

  /** Keys stay distinct under an increment. */
  lemma BumpDistinct(es: seq<Entry>, k: string)
    requires DistinctKeys(es)
    ensures DistinctKeys(Bump(es, k))
  {
    var r := Bump(es, k);
    BumpKeys(es, k);
    forall i, j | 0 <= i < j < |r| ensures r[i].key != r[j].key {
      assert Keys(r)[i] == r[i].key && Keys(r)[j] == r[j].key;
      if j < |es| {
        assert Keys(es)[i] == es[i].key && Keys(es)[j] == es[j].key;
      } else {
        assert Keys(es)[i] == es[i].key;
      }
    }
  }

  /** An increment adds one under its own key and changes no other count. */
  lemma {:induction false} BumpCount(es: seq<Entry>, k: string, j: string)
    requires DistinctKeys(es)
    ensures CountOf(Bump(es, k), j) == CountOf(es, j) + (if j == k then 1 else 0)
  {
    if |es| > 0 && es[0].key != k {
      assert DistinctKeys(es[1..]);
      BumpCount(es[1..], k, j);
      assert Bump(es, k)[1..] == Bump(es[1..], k);
    } else if |es| > 0 {
      assert Bump(es, k)[1..] == es[1..];
    }
  }

  /** An increment adds one to the total and keeps every count positive. */
  lemma {:induction false} BumpSum(es: seq<Entry>, k: string)
    ensures Sum(Bump(es, k)) == Sum(es) + 1
    ensures (forall i :: 0 <= i < |es| ==> es[i].count >= 1) ==>
              forall i :: 0 <= i < |Bump(es, k)| ==> Bump(es, k)[i].count >= 1
  {
    if |es| > 0 && es[0].key != k {
      BumpSum(es[1..], k);
      assert Bump(es, k)[1..] == Bump(es[1..], k);
    } else if |es| > 0 {
      assert Bump(es, k)[1..] == es[1..];
    }
  }

  /** With distinct keys, `CountOf` reads back each entry's own count. */
  lemma {:induction false} CountOfEntry(es: seq<Entry>, i: nat)
    requires DistinctKeys(es) && i < |es|
    ensures CountOf(es, es[i].key) == es[i].count
  {
    if i > 0 {
      assert es[0].key != es[i].key;
      assert es[1..][i - 1] == es[i];
      CountOfEntry(es[1..], i - 1);
    }
  }

  /** A positive count belongs to some entry. */
  lemma {:induction false} CountOfPositive(es: seq<Entry>, k: string) returns (i: nat)
    requires CountOf(es, k) > 0
    ensures i < |es| && es[i].key == k
  {
    if es[0].key == k {
      i := 0;
    } else {
      var j := CountOfPositive(es[1..], k);
      i := j + 1;
    }
  }

  /** Counting one more booking adds one to its own key only. */
  lemma OccurrencesSnoc(bs: seq<Record>, b: Record, k: string)
    ensures Occurrences(bs + [b], k) == Occurrences(bs, k) + (if RoomKey(b) == k then 1 else 0)
  {
    FilterAppend(bs, [b], x => RoomKey(x) == k);
    assert [b][1..] == [];
  }

  /**
   * The per-room counts: keys are distinct, every count is at least one,
   * the count under each key is the number of bookings with that key, and
   * the counts add up to the number of bookings.
   */
  lemma {:induction false} TallyFacts(bs: seq<Record>)
    ensures DistinctKeys(Tally(bs))
    ensures forall i :: 0 <= i < |Tally(bs)| ==> Tally(bs)[i].count >= 1
    ensures forall k :: CountOf(Tally(bs), k) == Occurrences(bs, k)
    ensures Sum(Tally(bs)) == |bs|
  {
    if |bs| > 0 {
      var init, last := bs[..|bs| - 1], bs[|bs| - 1];
      assert bs == init + [last];
      TallyFacts(init);
      BumpDistinct(Tally(init), RoomKey(last));
      BumpSum(Tally(init), RoomKey(last));
      forall k ensures CountOf(Tally(bs), k) == Occurrences(bs, k) {
        BumpCount(Tally(init), RoomKey(last), k);
        OccurrencesSnoc(init, last, k);
      }
    }
  }

  /** Each entry's count is exactly the number of bookings of its room. */
  lemma EntryCounts(bs: seq<Record>, i: nat)
    requires i < |Tally(bs)|
    ensures Tally(bs)[i].count == Occurrences(bs, Tally(bs)[i].key) >= 1
  {
    TallyFacts(bs);
    CountOfEntry(Tally(bs), i);
  }

  /** Every booking's room has an entry. */
  lemma EveryRoomCounted(bs: seq<Record>, j: nat) returns (i: nat)
    requires j < |bs|
    ensures i < |Tally(bs)| && Tally(bs)[i].key == RoomKey(bs[j])
  {
    TallyFacts(bs);
    var k := RoomKey(bs[j]);
    var f := Filter(bs, b => RoomKey(b) == k);
    assert bs[j] in f;
    i := CountOfPositive(Tally(bs), k);
  }

  /** `roomChartData`: "Room " followed by the key, with its count. */
  function ChartData(es: seq<Entry>): (r: seq<ChartEntry>)
    ensures |r| == |es|
  {
    seq(|es|, i requires 0 <= i < |es| => ChartEntry("Room " + es[i].key, es[i].count))
  }

  /** The chart values add up like the counts. */
  lemma {:induction false} ChartSum(es: seq<Entry>)
    ensures SumValues(ChartData(es)) == Sum(es)
  {
    if |es| > 0 {
      assert ChartData(es)[1..] == ChartData(es[1..]);
      ChartSum(es[1..]);
    }
  }

  function SumValues(cs: seq<ChartEntry>): nat
  {
    if |cs| == 0 then 0 else cs[0].value + SumValues(cs[1..])
  }

  /** `processBookingData`, run by the effect only when there are bookings; otherwise the old data stays. */
  function Process(previous: seq<ChartEntry>, bs: seq<Record>): (r: seq<ChartEntry>)
    ensures |bs| == 0 ==> r == previous
    ensures |bs| > 0 ==> |r| == |Tally(bs)|
  {
    if |bs| > 0 then ChartData(Tally(bs)) else previous
  }

  /**
   * The chart of a non-empty booking list: one entry per distinct room key,
   * named "Room " + key, with count at least one and equal to the bookings
   * of that room, every booking's room present, and values summing to the
   * number of bookings.
   */
  lemma ChartFacts(previous: seq<ChartEntry>, bs: seq<Record>)
    requires |bs| > 0
    ensures var r := Process(previous, bs);
            && (forall i :: 0 <= i < |r| ==>
                  r[i].name == "Room " + Tally(bs)[i].key
                  && r[i].value == Occurrences(bs, Tally(bs)[i].key) >= 1)
            && (forall i, j :: 0 <= i < j < |r| ==> r[i].name != r[j].name)
            && (forall j :: 0 <= j < |bs| ==> exists i :: 0 <= i < |r| && r[i].name == "Room " + RoomKey(bs[j]))
            && SumValues(r) == |bs|
  {
    var es := Tally(bs);
    var r := Process(previous, bs);
    TallyFacts(bs);
    ChartSum(es);
    forall i | 0 <= i < |r|
      ensures r[i].name == "Room " + es[i].key && r[i].value == Occurrences(bs, es[i].key) >= 1
    {
      EntryCounts(bs, i);
    }
    forall i, j | 0 <= i < j < |r| ensures r[i].name != r[j].name {
      assert r[i].name[5..] == es[i].key;
      assert r[j].name[5..] == es[j].key;
    }
    forall j | 0 <= j < |bs| ensures exists i :: 0 <= i < |r| && r[i].name == "Room " + RoomKey(bs[j]) {
      var i := EveryRoomCounted(bs, j);
      assert r[i].name == "Room " + RoomKey(bs[j]);
    }
  }
}
