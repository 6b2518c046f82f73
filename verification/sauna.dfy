/**
 * The sauna calendar: one slot per hour from 08:00 to 21:00, for one day
 * (`generateDailySlots`) or for the seven days of a week (`generateSlots`),
 * and the optimistic toggle the click handler applies to its local grid.
 */
module Sauna {
  import opened Calendar
  import opened Slots

  /** Slots per day: start hours 8 through 21. */
  const PER_DAY: int := 14

  /** The sauna slot `i` hours after opening. */
  function HourSlot(day: Day, i: int): Slot
  {
    NewSlot(day, OPEN_HOUR + i, Sauna)
  }

  /** `generateDailySlots`: the fourteen sauna slots of one day, hour `8 + i` at position `i`. */
  function DailySlots(day: Day): (r: seq<Slot>)
    ensures |r| == PER_DAY
    ensures Fresh(r)
    ensures forall i :: 0 <= i < |r| ==> r[i] == NewSlot(day, OPEN_HOUR + i, Sauna)
    ensures forall i :: 0 <= i < |r| ==>
              r[i].id.day == day && OPEN_HOUR <= r[i].id.hour <= LAST_HOUR && r[i].id.resource == Sauna
  {
    seq(14, i requires 0 <= i < 14 => HourSlot(day, i))
  }

  /** A sauna slot id for an opening hour of one of the `n` days from `first`. */
  predicate Covers(first: Day, n: nat, id: SlotId)
  {
    InWindow(first, n, id) && id.resource == Sauna
  }

  /** The day loop: the daily grids of `n` consecutive days from `first`. */
  function DaysFrom(first: Day, n: nat): (r: seq<Slot>)
    ensures |r| == 14 * n
    ensures Fresh(r)
    ensures forall i :: 0 <= i < |r| ==> Covers(first, n, r[i].id)
    decreases n
  {
    if n == 0 then [] else DailySlots(first) + DaysFrom(first + 1, n - 1)
  }

  /**
   * `generateSlots`: the sauna slots of the week (Sunday to Saturday)
   * containing `date`: 98 fresh slots, ordered without overlap, with
   * pairwise distinct ids, holding exactly hours 8 to 21 of the seven days.
   */
  function WeeklySlots(date: Day): (r: seq<Slot>)
    ensures |r| == 98
    ensures Fresh(r) && Ordered(r)
    ensures forall i, j :: 0 <= i < j < |r| ==> r[i].id != r[j].id
    ensures forall i :: 0 <= i < |r| ==> Covers(StartOfWeek(date), 7, r[i].id)
    ensures forall id :: Covers(StartOfWeek(date), 7, id) ==> exists i :: 0 <= i < |r| && r[i].id == id
  {
    DaysGrid(StartOfWeek(date), 7);
    DaysFrom(StartOfWeek(date), 7)
  }

  lemma DailyOrdered(day: Day)
    ensures Ordered(DailySlots(day))
  {
    var a := DailySlots(day);
    forall i, j | 0 <= i < j < |a|
      ensures a[i].start <= a[j].start && a[i].end <= a[j].start
    {
      SlotOrder(day, OPEN_HOUR + i, day, OPEN_HOUR + j);
    }
  }

  /** A day's slots all end before the next days' slots start. */
  lemma DayBeforeLater(first: Day, n: nat)
    ensures var a := DailySlots(first);
            var b := DaysFrom(first + 1, n);
            forall i, j :: 0 <= i < |a| && 0 <= j < |b| ==> a[i].end <= b[j].start && a[i].start <= b[j].start
  {
    var a := DailySlots(first);
    var b := DaysFrom(first + 1, n);
    forall i, j | 0 <= i < |a| && 0 <= j < |b|
      ensures a[i].end <= b[j].start && a[i].start <= b[j].start
    {
      assert Covers(first + 1, n, b[j].id);
      SlotOrder(first, OPEN_HOUR + i, b[j].id.day, b[j].id.hour);
    }
  }

  lemma {:induction false} DaysOrdered(first: Day, n: nat)
    ensures Ordered(DaysFrom(first, n))
    decreases n
  {
    if n > 0 {
      var a, b := DailySlots(first), DaysFrom(first + 1, n - 1);
      assert DaysFrom(first, n) == a + b;
      assert Ordered(a + b) by {
        DaysOrdered(first + 1, n - 1);
        DailyOrdered(first);
        DayBeforeLater(first, n - 1);
        OrderedAppend(a, b);
      }
    }
  }

  lemma {:induction false} DaysComplete(first: Day, n: nat, id: SlotId)
    requires Covers(first, n, id)
    ensures exists i :: 0 <= i < |DaysFrom(first, n)| && DaysFrom(first, n)[i].id == id
    decreases n
  {
    var a := DailySlots(first);
    var r := DaysFrom(first, n);
    assert r == a + DaysFrom(first + 1, n - 1);
    if id.day == first {
      var k := id.hour - OPEN_HOUR;
      assert a[k].id == id;
      assert r[k] == a[k];
    } else {
      DaysComplete(first + 1, n - 1, id);
      var b := DaysFrom(first + 1, n - 1);
      var i :| 0 <= i < |b| && b[i].id == id;
      assert r[|a| + i] == b[i];
    }
  }

  /**
   * The grid of `n` days: fresh slots, ordered by day then hour without
   * overlap, so their ids are pairwise distinct; it holds exactly the hours
   * 8 to 21 of those days.
   */
  lemma DaysGrid(first: Day, n: nat)
    ensures var r := DaysFrom(first, n);
            && Fresh(r) && Ordered(r)
            && (forall i, j :: 0 <= i < j < |r| ==> r[i].id != r[j].id)
            && (forall i :: 0 <= i < |r| ==> Covers(first, n, r[i].id))
            && (forall id :: Covers(first, n, id) ==> exists i :: 0 <= i < |r| && r[i].id == id)
  {
    DaysOrdered(first, n);
    forall id | Covers(first, n, id)
      ensures exists i :: 0 <= i < |DaysFrom(first, n)| && DaysFrom(first, n)[i].id == id
    {
      DaysComplete(first, n, id);
    }
    OrderedIdsDistinct(DaysFrom(first, n));
  }

  /** The daily grid: 14 fresh, ordered slots for hours 8 to 21 of the chosen day. */
  lemma DailyGrid(day: Day)
    ensures var r := DailySlots(day);
            && Fresh(r) && Ordered(r)
            && (forall i :: 0 <= i < |r| ==> r[i].id == SlotId(day, OPEN_HOUR + i, Sauna))
  {
    var r := DailySlots(day);
    forall i, j | 0 <= i < j < |r|
      ensures r[i].end <= r[j].start
    {
      SlotOrder(day, OPEN_HOUR + i, day, OPEN_HOUR + j);
    }
  }

  /**
   * The sauna click handler first flips the clicked slot in its local grid:
   * available becomes "my-reservation", anything else becomes available.
   */
  function Toggle(grid: seq<Slot>, id: SlotId): (r: seq<Slot>)
    ensures |r| == |grid|
    ensures forall i :: 0 <= i < |r| && grid[i].id != id ==> r[i] == grid[i]
    ensures forall i :: 0 <= i < |r| && grid[i].id == id ==>
              && r[i].id == id && r[i].start == grid[i].start && r[i].end == grid[i].end
              && (r[i].status == Booked <==> grid[i].status == Available)
              && (r[i].title == MyReservation <==> grid[i].status == Available)
              && (grid[i].status != Available ==> r[i].status == Available && r[i].title == AvailableTitle)
  {
    seq(|grid|, i requires 0 <= i < |grid| =>
      if grid[i].id != id then grid[i]
      else if grid[i].status == Available then grid[i].(status := Booked, title := MyReservation)
      else grid[i].(status := Available, title := AvailableTitle))
  }

  /** Toggling changes no id, so `find` by id lands on the same position. */
  lemma {:induction false} ToggleKeepsPosition(grid: seq<Slot>, id: SlotId)
    ensures FindSlot(Toggle(grid, id), id) == FindSlot(grid, id)
  {
    SameIdsSameFind(Toggle(grid, id), grid, id);
  }

  /**
   * The sauna's own `handleSlotClick`: after the cutoff it toggles the
   * clicked slot in the local grid, finds it there again, adds a booking
   * for its period when it now reads "booked", and otherwise deletes the
   * first booking with the same period.  A sauna slot's match is that
   * period equality, and its new booking carries no `facilities`.  An id
   * missing from the grid makes the source throw; here it sends nothing.
   */
  function SaunaClick(now: Instant, event: Slot, grid: seq<Slot>, bookings: seq<Booking>, user: User): (c: Command)
    ensures c.Reject? <==> Locked(now, event)
    ensures !Locked(now, event) && FindSlot(grid, event.id).None? ==> c.NoOp?
  {
    if Locked(now, event) then Reject
    else
      var updated := Toggle(grid, event.id);
      ToggleKeepsPosition(grid, event.id);
      match FindSlot(updated, event.id)
      case None => NoOp
      case Some(k) =>
        var clicked := updated[k];
        if clicked.status == Booked then Create(NewRequest(clicked, user))
        else
          match FirstMatch(bookings, clicked)
          case None => NoOp
          case Some(j) => Delete(bookings[j].bookingId, user.uid)
  }

  /** For a sauna slot, a match is exactly the same start and end, and a new booking has no `facilities`. */
  lemma SaunaMatchIsPeriod(b: Booking, s: Slot, user: User)
    requires s.id.resource == Sauna
    ensures Matches(b, s) <==> b.period == Period(s.start, s.end)
    ensures NewRequest(s, user).facilities.None?
  {
  }

  /**
   * The sauna handler, deciding on the toggled copy of the grid, sends
   * exactly the command of the shared click model, which decides on the
   * grid as reconciled: the same create, the same delete, or nothing.
   */
  lemma SaunaClickIsClick(now: Instant, event: Slot, grid: seq<Slot>, bookings: seq<Booking>, user: User)
    ensures SaunaClick(now, event, grid, bookings, user) == Click(now, event, grid, bookings, user)
  {
    if !Locked(now, event) {
      ToggleKeepsPosition(grid, event.id);
      var t := Toggle(grid, event.id);
      match FindSlot(grid, event.id)
      case None =>
      case Some(k) =>
        assert t[k].start == grid[k].start && t[k].end == grid[k].end && t[k].id == grid[k].id;
        assert NewRequest(t[k], user) == NewRequest(grid[k], user);
        assert forall b :: Matches(b, t[k]) == Matches(b, grid[k]);
        assert FirstMatch(bookings, t[k]) == FirstMatch(bookings, grid[k]) by {
          FirstMatchSameSlot(bookings, t[k], grid[k]);
        }
    }
  }

  /**
   * The flipped slot decides the store call: the sauna handler adds a
   * booking exactly when the toggled slot reads "booked", which is exactly
   * when the reconciled slot was available.
   */
  lemma ToggleDecidesCommand(now: Instant, event: Slot, grid: seq<Slot>, bookings: seq<Booking>, user: User)
    requires !Locked(now, event)
    requires FindSlot(grid, event.id).Some?
    ensures var k := FindSlot(grid, event.id).value;
            Toggle(grid, event.id)[k].status == Booked <==> Click(now, event, grid, bookings, user).Create?
  {
  }
}
