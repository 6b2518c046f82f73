/**
 * The laundry-room calendar: for every hour from 08:00 to 21:00 a washer
 * slot followed by a dryer slot, for one day or for a week; the per-machine
 * matching of bookings; and the cutoff part of the slot styling.
 */
module Laundry {
  import opened Options
  import opened Calendar
  import opened Slots

  /** Slots per day: two machines for each of the fourteen start hours. */
  const PER_DAY: int := 28

  /** The machine of the `i`-th slot of a day: even positions wash, odd ones dry. */
  function MachineAt(i: int): Resource
  {
    if i % 2 == 0 then Washer else Dryer
  }

  /**
   * The twenty-eight slots of one day: for each hour from 8 to 21 a washer
   * slot and then a dryer slot, so position `i` holds hour `8 + i / 2`.
   */
  function DailySlots(day: Day): (r: seq<Slot>)
    ensures |r| == PER_DAY
    ensures Fresh(r)
    ensures forall i :: 0 <= i < |r| ==> r[i] == NewSlot(day, OPEN_HOUR + i / 2, MachineAt(i))
    ensures forall i :: 0 <= i < |r| ==>
              r[i].id.day == day && OPEN_HOUR <= r[i].id.hour <= LAST_HOUR && r[i].id.resource != Sauna
  {
    seq(28, i requires 0 <= i < 28 => NewSlot(day, OPEN_HOUR + i / 2, MachineAt(i)))
  }

  /** A laundry slot id for an opening hour of one of the `n` days from `first`. */
  predicate Covers(first: Day, n: nat, id: SlotId)
  {
    InWindow(first, n, id) && (id.resource == Washer || id.resource == Dryer)
  }

  /** The day loop: the daily grids of `n` consecutive days from `first`. */
  function DaysFrom(first: Day, n: nat): (r: seq<Slot>)
    ensures |r| == 28 * n
    ensures Fresh(r)
    ensures forall i :: 0 <= i < |r| ==> Covers(first, n, r[i].id)
    decreases n
  {
    if n == 0 then [] else DailySlots(first) + DaysFrom(first + 1, n - 1)
  }

  /**
   * `generateSlots(date, isDailyView)`: the chosen day alone, or the week
   * (Sunday to Saturday) containing it.  Either way the slots are fresh,
   * ordered by start with no overlap per machine and pairwise distinct ids,
   * and hold exactly a washer and a dryer slot for every opening hour of
   * the days shown.
   */
  function GenerateSlots(date: Day, isDailyView: bool): (r: seq<Slot>)
    ensures |r| == if isDailyView then 28 else 196
    ensures var first := if isDailyView then date else StartOfWeek(date);
            var n := if isDailyView then 1 else 7;
            && Fresh(r) && Ordered(r)
            && (forall i, j :: 0 <= i < j < |r| ==> r[i].id != r[j].id)
            && (forall i :: 0 <= i < |r| ==> Covers(first, n, r[i].id))
            && (forall id :: Covers(first, n, id) ==> exists i :: 0 <= i < |r| && r[i].id == id)
  {
    var first := if isDailyView then date else StartOfWeek(date);
    var n := if isDailyView then 1 else 7;
    DaysGrid(first, n);
    DaysFrom(first, n)
  }

  lemma DailyOrdered(day: Day)
    ensures Ordered(DailySlots(day))
  {
    var a := DailySlots(day);
    forall i, j | 0 <= i < j < |a|
      ensures a[i].start <= a[j].start && (a[i].id.resource == a[j].id.resource ==> a[i].end <= a[j].start)
    {
      var hi, hj := i / 2, j / 2;
      assert hi <= hj;
      if hi < hj {
        SlotOrder(day, OPEN_HOUR + hi, day, OPEN_HOUR + hj);
      } else {
        assert j == i + 1 && i % 2 == 0;
      }
    }
  }

  lemma DayBeforeLater(first: Day, n: nat)
    ensures var a := DailySlots(first);
            var b := DaysFrom(first + 1, n);
            forall i, j :: 0 <= i < |a| && 0 <= j < |b| ==> a[i].end <= b[j].start && a[i].start <= b[j].start
  {
    var a := DailySlots(first);
    var b := DaysFrom(first + 1, n);
    forall i, j | 0 <= i < |a| && 0 <= j < |b|
      ensures a[i].end <= b[j].start && a[i].start <= b[j].start
    {
      assert Covers(first + 1, n, b[j].id);
      SlotOrder(first, a[i].id.hour, b[j].id.day, b[j].id.hour);
    }
  }

  lemma {:induction false} DaysOrdered(first: Day, n: nat)
    ensures Ordered(DaysFrom(first, n))
    decreases n
  {
    if n > 0 {
      var a, b := DailySlots(first), DaysFrom(first + 1, n - 1);
      assert DaysFrom(first, n) == a + b;
      assert Ordered(a + b) by {
        DaysOrdered(first + 1, n - 1);
        DailyOrdered(first);
        DayBeforeLater(first, n - 1);
        OrderedAppend(a, b);
      }
    }
  }

  /** Every laundry id of a day is at position `2 * (hour - 8)`, plus one for the dryer. */
  lemma DayHas(day: Day, id: SlotId) returns (k: nat)
    requires id.day == day && OPEN_HOUR <= id.hour <= LAST_HOUR && id.resource != Sauna
    ensures k < |DailySlots(day)| && DailySlots(day)[k].id == id
  {
    k := 2 * (id.hour - OPEN_HOUR) + (if id.resource == Washer then 0 else 1);
    assert k / 2 == id.hour - OPEN_HOUR && MachineAt(k) == id.resource;
  }

  lemma {:induction false} DaysComplete(first: Day, n: nat, id: SlotId)
    requires Covers(first, n, id)
    ensures exists i :: 0 <= i < |DaysFrom(first, n)| && DaysFrom(first, n)[i].id == id
    decreases n
  {
    var a := DailySlots(first);
    var r := DaysFrom(first, n);
    assert r == a + DaysFrom(first + 1, n - 1);
    if id.day == first {
      var k := DayHas(first, id);
      assert r[k] == a[k];
    } else {
      DaysComplete(first + 1, n - 1, id);
      var b := DaysFrom(first + 1, n - 1);
      var i :| 0 <= i < |b| && b[i].id == id;
      assert r[|a| + i] == b[i];
    }
  }

  /**
   * The laundry grid of `n` days: fresh slots, ordered by start with no
   * overlap per machine and pairwise distinct ids, holding exactly a washer
   * and a dryer slot for every opening hour of those days.
   */
  lemma DaysGrid(first: Day, n: nat)
    ensures var r := DaysFrom(first, n);
            && Fresh(r) && Ordered(r)
            && (forall i, j :: 0 <= i < j < |r| ==> r[i].id != r[j].id)
            && (forall i :: 0 <= i < |r| ==> Covers(first, n, r[i].id))
            && (forall id :: Covers(first, n, id) ==> exists i :: 0 <= i < |r| && r[i].id == id)
  {
    DaysOrdered(first, n);
    forall id | Covers(first, n, id)
      ensures exists i :: 0 <= i < |DaysFrom(first, n)| && DaysFrom(first, n)[i].id == id
    {
      DaysComplete(first, n, id);
    }
    OrderedIdsDistinct(DaysFrom(first, n));
  }

  /** Within a day, an even position is a washer slot and the next one its dryer twin. */
  lemma DailyPair(day: Day, i: int)
    requires 0 <= i < PER_DAY && i % 2 == 0
    ensures var a := DailySlots(day);
            && a[i] == NewSlot(day, OPEN_HOUR + i / 2, Washer)
            && a[i + 1] == NewSlot(day, OPEN_HOUR + i / 2, Dryer)
  {
    assert (i + 1) / 2 == i / 2 && MachineAt(i) == Washer && MachineAt(i + 1) == Dryer;
  }

  /**
   * Each hour's washer slot is immediately followed by its dryer slot, with
   * the same day, hour, start and end.
   */
  lemma {:induction false} WasherThenDryer(first: Day, n: nat, i: nat)
    requires i < |DaysFrom(first, n)| && i % 2 == 0
    ensures var r := DaysFrom(first, n);
            && i + 1 < |r|
            && r[i].id.resource == Washer && r[i + 1].id.resource == Dryer
            && r[i].id.day == r[i + 1].id.day && r[i].id.hour == r[i + 1].id.hour
            && r[i].start == r[i + 1].start && r[i].end == r[i + 1].end
    decreases n
  {
    var a := DailySlots(first);
    var r := DaysFrom(first, n);
    assert r == a + DaysFrom(first + 1, n - 1);
    if i < |a| {
      DailyPair(first, i);
      assert r[i] == a[i] && r[i + 1] == a[i + 1];
    } else {
      WasherThenDryer(first + 1, n - 1, i - |a|);
      assert r[i] == DaysFrom(first + 1, n - 1)[i - |a|];
      assert r[i + 1] == DaysFrom(first + 1, n - 1)[i + 1 - |a|];
    }
  }

  /**
   * A booking whose only flag is the washing machine marks the washer slot
   * of its hour and leaves the dryer slot of that hour as generated.
   */
  lemma WasherBookingSparesDryer(grid: seq<Slot>, b: Booking, user: User, w: nat, d: nat)
    requires w < |grid| && d < |grid|
    requires grid[w].id.resource == Washer && grid[d].id.resource == Dryer
    requires grid[w].start == grid[d].start && grid[w].end == grid[d].end
    requires b.period == Period(grid[w].start, grid[w].end)
    requires b.facilities == Some(Facilities(true, false))
    ensures Reconcile(grid, [b], user)[w].status == Booked
    ensures Reconcile(grid, [b], user)[d] == grid[d]
  {
    assert Matches([b][0], grid[w]);
  }

  /** A booking without a `facilities` object matches no laundry slot. */
  lemma NoFacilitiesNoMatch(b: Booking, s: Slot)
    requires b.facilities.None? && s.id.resource != Sauna
    ensures !Matches(b, s)
  {
  }

  /**
   * The booking added for an available laundry slot has exactly one flag
   * set, the one of the clicked machine: it occupies that slot and not the
   * other machine's slot of the same hour.
   */
  lemma CreatedBookingFlags(now: Instant, event: Slot, grid: seq<Slot>, bookings: seq<Booking>, user: User,
                            id: string, other: Slot)
    requires Click(now, event, grid, bookings, user).Create?
    requires event.id.resource != Sauna
    requires other.id.resource != Sauna
    ensures var c := Click(now, event, grid, bookings, user);
            var f := c.request.facilities;
            && f.Some?
            && (f.value.isWashingMachine <==> event.id.resource == Washer)
            && (f.value.isDryer <==> event.id.resource == Dryer)
            && (other.id.resource != event.id.resource ==> !Matches(Stored(c.request, id), other))
  {
  }

  /** The CSS class a laundry slot is drawn with. */
  datatype Style = Past | MyReservationStyle | BookedStyle | AvailableStyle

  /** `eventPropGetter`: class and whether the slot reacts to the pointer. */
  datatype Look = Look(style: Style, clickable: bool)

  function Appearance(now: Instant, s: Slot): (l: Look)
    ensures l.style == Past <==> Locked(now, s)
    ensures l.clickable <==> !Locked(now, s)
    ensures !Locked(now, s) ==>
              && (l.style == MyReservationStyle <==> s.title == MyReservation)
              && (l.style == BookedStyle <==> s.title != MyReservation && s.status == Booked)
  {
    if Locked(now, s) then Look(Past, false)
    else if s.title == MyReservation then Look(MyReservationStyle, true)
    else if s.status == Booked then Look(BookedStyle, true)
    else Look(AvailableStyle, true)
  }

  /**
   * The styling and the click handler use the same cutoff: a slot the
   * pointer can reach is never rejected, and one drawn as past always is,
   * whoever owns it.
   */
  lemma AppearanceAgreesWithClick(now: Instant, s: Slot, grid: seq<Slot>, bookings: seq<Booking>, user: User)
    ensures Appearance(now, s).clickable <==> !Click(now, s, grid, bookings, user).Reject?
    ensures Appearance(now, s).style == Past ==> Click(now, s, grid, bookings, user) == Reject
  {
  }
}
