/**
 * Hourly facility slots shared by the sauna and the laundry room: the slot
 * and booking records, matching a booking to a slot, overlaying the stored
 * bookings on a grid of slots, and turning a click on a slot into at most
 * one store command.
 */
module Slots {
  import opened Options
  import opened Calendar

  /** First and last slot start hours; the last slot ends at 22:00. */
  const OPEN_HOUR: int := 8
  const LAST_HOUR: int := 21

  /** No slot starting less than this long after now can be booked or cancelled. */
  const CUTOFF: int := 2 * HOUR

  /** What a slot books: the sauna, or one of the two laundry machines. */
  datatype Resource = Sauna | Washer | Dryer

  datatype Status = Available | Booked

  /** The title shown on a slot: "available", "booked" or "my-reservation". */
  datatype Title = AvailableTitle | BookedTitle | MyReservation

  /**
   * A slot id names the day, the start hour and the resource; the source
   * spells it "YYYY-MM-DD-H" for the sauna and adds "-washer" or "-dryer"
   * for the laundry room.
   */
  datatype SlotId = SlotId(day: Day, hour: int, resource: Resource)

  datatype Slot = Slot(id: SlotId, title: Title, start: Instant, end: Instant, status: Status)

  datatype Client = Client(fullName: string, uid: string)

  datatype User = User(fullName: string, uid: string)

  /** The laundry booking's `facilities` object; sauna bookings have none. */
  datatype Facilities = Facilities(isWashingMachine: bool, isDryer: bool)

  datatype Period = Period(startFrom: Instant, endAt: Instant)

  /** A stored sauna or laundry booking; `bookingId` is the store's id. */
  datatype Booking = Booking(bookingId: string, period: Period, client: Client, facilities: Option<Facilities>)

  /** The record handed to the store's add call (the store assigns the id). */
  datatype Request = Request(period: Period, client: Client, facilities: Option<Facilities>)

  /** The single store call, or its absence, that one click produces. */
  datatype Command =
    | Reject                                  // error popup, no store call
    | Create(request: Request)                // addSaunaBooking / addLaundryBooking
    | Delete(bookingId: string, uid: string)  // deleteSaunaBooking / deleteLaundryBooking
    | NoOp                                    // no store call, no popup

  /** A freshly generated slot: one hour long, available. */
  function NewSlot(day: Day, hour: int, resource: Resource): Slot
  {
    Slot(SlotId(day, hour, resource), AvailableTitle, At(day, hour), At(day, hour) + HOUR, Available)
  }

  /** Every slot of a generated grid: available, one hour long, starting on the hour its id names. */
  ghost predicate Fresh(r: seq<Slot>)
  {
    forall i :: 0 <= i < |r| ==> r[i] == NewSlot(r[i].id.day, r[i].id.hour, r[i].id.resource)
  }

  /** An id for an opening hour of one of the `n` days from `first`. */
  predicate InWindow(first: Day, n: nat, id: SlotId)
  {
    first <= id.day < first + n && OPEN_HOUR <= id.hour <= LAST_HOUR
  }

  /**
   * Ordered by start time, and slots of the same resource do not overlap:
   * each ends no later than any later one starts.
   */
  ghost predicate Ordered(r: seq<Slot>)
  {
    forall i, j :: 0 <= i < j < |r| ==>
      r[i].start <= r[j].start && (r[i].id.resource == r[j].id.resource ==> r[i].end <= r[j].start)
  }

  lemma SlotOrder(d1: Day, h1: int, d2: Day, h2: int)
    requires OPEN_HOUR <= h1 <= LAST_HOUR && OPEN_HOUR <= h2 <= LAST_HOUR
    requires d1 < d2 || (d1 == d2 && h1 < h2)
    ensures At(d1, h1) + HOUR <= At(d2, h2)
  {
  }

  lemma OrderedAppend(a: seq<Slot>, b: seq<Slot>)
    requires Ordered(a) && Ordered(b)
    requires forall i, j :: 0 <= i < |a| && 0 <= j < |b| ==> a[i].end <= b[j].start && a[i].start <= b[j].start
    ensures Ordered(a + b)
  {
    var r := a + b;
    forall i, j | 0 <= i < j < |r|
      ensures r[i].start <= r[j].start && (r[i].id.resource == r[j].id.resource ==> r[i].end <= r[j].start)
    {
      if j < |a| {
        assert r[i] == a[i] && r[j] == a[j];
      } else if i < |a| {
        assert r[i] == a[i] && r[j] == b[j - |a|];
      } else {
        assert r[i] == b[i - |a|] && r[j] == b[j - |a|];
      }
    }
  }

  /** In a fresh, ordered grid no two slots share an id. */
  lemma OrderedIdsDistinct(r: seq<Slot>)
    requires Fresh(r) && Ordered(r)
    ensures forall i, j :: 0 <= i < j < |r| ==> r[i].id != r[j].id
  {
  }

  /** The facility flag a booking must carry to occupy a slot of resource `r`. */
  predicate FlagFor(b: Booking, r: Resource)
  {
    match r
    case Sauna => true
    case Washer => b.facilities.Some? && b.facilities.value.isWashingMachine
    case Dryer => b.facilities.Some? && b.facilities.value.isDryer
  }

  /** Exact-instant equality of the period plus, for laundry, the facility flag. */
  predicate Matches(b: Booking, s: Slot)
  {
    b.period.startFrom == s.start && b.period.endAt == s.end && FlagFor(b, s.id.resource)
  }

  predicate AnyMatch(bookings: seq<Booking>, s: Slot)
  {
    exists j :: 0 <= j < |bookings| && Matches(bookings[j], s)
  }

  /** `bookings.find(...)`: the index of the first booking matching `s`. */
  function FirstMatch(bookings: seq<Booking>, s: Slot): (r: Option<nat>)
    ensures r.None? <==> !AnyMatch(bookings, s)
    ensures r.Some? ==> r.value < |bookings| && Matches(bookings[r.value], s)
    ensures r.Some? ==> forall j :: 0 <= j < r.value ==> !Matches(bookings[j], s)
  {
    if |bookings| == 0 then None
    else if Matches(bookings[0], s) then Some(0)
    else
      match FirstMatch(bookings[1..], s)
      case None =>
        assert forall j :: 1 <= j < |bookings| ==> bookings[j] == bookings[1..][j - 1];
        None
      case Some(k) =>
        assert forall j :: 1 <= j <= k ==> bookings[j] == bookings[1..][j - 1];
        Some(k + 1)
  }

  /** One slot after reconciliation. */
  function Overlay(s: Slot, bookings: seq<Booking>, user: User): Slot
  {
    match FirstMatch(bookings, s)
    case None => s
    case Some(k) =>
      s.(status := Booked,
         title := if bookings[k].client.uid == user.uid then MyReservation else BookedTitle)
  }

  /** `updateSlotStatus`: overlay the stored bookings on a grid of slots. */
  function Reconcile(grid: seq<Slot>, bookings: seq<Booking>, user: User): (r: seq<Slot>)
    ensures |r| == |grid|
    ensures forall i :: 0 <= i < |r| ==>
              r[i].id == grid[i].id && r[i].start == grid[i].start && r[i].end == grid[i].end
    ensures forall i :: 0 <= i < |r| && !AnyMatch(bookings, grid[i]) ==> r[i] == grid[i]
    ensures forall i :: 0 <= i < |r| && AnyMatch(bookings, grid[i]) ==>
              && r[i].status == Booked
              && (r[i].title == MyReservation || r[i].title == BookedTitle)
              && (r[i].title == MyReservation <==>
                    bookings[FirstMatch(bookings, grid[i]).value].client.uid == user.uid)
  {
    seq(|grid|, i requires 0 <= i < |grid| => Overlay(grid[i], bookings, user))
  }

  /** A slot is locked when it starts less than two hours from now. */
  predicate Locked(now: Instant, s: Slot)
  {
    s.start < now + CUTOFF
  }

  /** `slots.find(slot => slot.id === event.id)`. */
  function FindSlot(grid: seq<Slot>, id: SlotId): (r: Option<nat>)
    ensures r.None? <==> forall i :: 0 <= i < |grid| ==> grid[i].id != id
    ensures r.Some? ==> r.value < |grid| && grid[r.value].id == id
    ensures r.Some? ==> forall i :: 0 <= i < r.value ==> grid[i].id != id
  {
    if |grid| == 0 then None
    else if grid[0].id == id then Some(0)
    else
      match FindSlot(grid[1..], id)
      case None =>
        assert forall i :: 1 <= i < |grid| ==> grid[i] == grid[1..][i - 1];
        None
      case Some(k) =>
        assert forall i :: 1 <= i <= k ==> grid[i] == grid[1..][i - 1];
        Some(k + 1)
  }

  /** The `facilities` of a new booking for a slot of resource `r`. */
  function FacilitiesFor(r: Resource): Option<Facilities>
  {
    match r
    case Sauna => None
    case Washer => Some(Facilities(true, false))
    case Dryer => Some(Facilities(false, true))
  }

  /** The booking the click handler adds for an available slot. */
  function NewRequest(s: Slot, user: User): Request
  {
    Request(Period(s.start, s.end), Client(user.fullName, user.uid), FacilitiesFor(s.id.resource))
  }

  /**
   * `handleSlotClick`.  The cutoff is checked on the clicked event before the
   * grid is consulted; an available slot is booked for the current user; any
   * other slot deletes the first matching booking with the current user's
   * uid, whoever owns it.  An id missing from the grid produces no store call.
   */
  function Click(now: Instant, event: Slot, grid: seq<Slot>, bookings: seq<Booking>, user: User): (c: Command)
    ensures c.Reject? <==> Locked(now, event)
    ensures !Locked(now, event) && FindSlot(grid, event.id).None? ==> c.NoOp?
    ensures c.Create? ==>
              exists i :: 0 <= i < |grid| && grid[i].id == event.id && grid[i].status == Available
                       && c.request == NewRequest(grid[i], user)
    ensures c.Delete? ==>
              exists i, j :: 0 <= i < |grid| && 0 <= j < |bookings| && grid[i].id == event.id
                          && grid[i].status == Booked && Matches(bookings[j], grid[i])
                          && c == Delete(bookings[j].bookingId, user.uid)
  {
    if Locked(now, event) then Reject
    else
      match FindSlot(grid, event.id)
      case None => NoOp
      case Some(i) =>
        var s := grid[i];
        if s.status == Available then Create(NewRequest(s, user))
        else
          match FirstMatch(bookings, s)
          case None => NoOp
          case Some(j) =>
            assert 0 <= i < |grid| && 0 <= j < |bookings| && grid[i].id == event.id
                && grid[i].status == Booked && Matches(bookings[j], grid[i]);
            Delete(bookings[j].bookingId, user.uid)
  }

  /** The slot the click acts on, when the click gets past the cutoff. */
  function Target(now: Instant, event: Slot, grid: seq<Slot>): Option<Slot>
  {
    if Locked(now, event) then None
    else
      match FindSlot(grid, event.id)
      case None => None
      case Some(i) => Some(grid[i])
  }

  /** A slot exactly two hours ahead passes the strict `<` cutoff; one a millisecond earlier does not. */
  lemma CutoffBoundary(now: Instant, event: Slot, grid: seq<Slot>, bookings: seq<Booking>, user: User)
    ensures event.start == now + CUTOFF ==> !Click(now, event, grid, bookings, user).Reject?
    ensures event.start == now + CUTOFF - 1 ==> Click(now, event, grid, bookings, user).Reject?
  {
  }

  /** Clicking an available slot creates exactly its booking and deletes nothing. */
  lemma AvailableClickCreates(now: Instant, event: Slot, grid: seq<Slot>, bookings: seq<Booking>, user: User)
    requires Target(now, event, grid).Some?
    requires Target(now, event, grid).value.status == Available
    ensures Click(now, event, grid, bookings, user) == Create(NewRequest(Target(now, event, grid).value, user))
  {
  }

  /**
   * Clicking a booked slot never creates; it deletes the first matching
   * booking with the current user's uid, also when another user owns it,
   * and does nothing when no booking matches.
   */
  lemma BookedClickDeletesFirstMatch(now: Instant, event: Slot, grid: seq<Slot>, bookings: seq<Booking>, user: User)
    requires Target(now, event, grid).Some?
    requires Target(now, event, grid).value.status == Booked
    ensures var s := Target(now, event, grid).value;
            var c := Click(now, event, grid, bookings, user);
            && !c.Create?
            && (c.Delete? <==> AnyMatch(bookings, s))
            && (c.Delete? ==> c == Delete(bookings[FirstMatch(bookings, s).value].bookingId, user.uid))
            && (!c.Delete? ==> c.NoOp?)
  {
  }

  /** The booking the store holds after a successful create of `r` under id `id`. */
  function Stored(r: Request, id: string): Booking
  {
    Booking(id, r.period, r.client, r.facilities)
  }

  /** A created booking occupies the slot it was made for. */
  lemma RequestMatchesItsSlot(s: Slot, user: User, id: string)
    ensures Matches(Stored(NewRequest(s, user), id), s)
  {
  }

  /**
   * Booking round trip: after a click creates a booking for an available
   * reconciled slot and the store appends it, reconciling the same grid
   * again shows that slot as the user's reservation.
   */
  lemma CreateThenReconcileIsMine(now: Instant, event: Slot, grid: seq<Slot>, bookings: seq<Booking>,
                                  user: User, id: string, k: nat)
    requires k < |grid| && grid[k].id == event.id
    requires forall i :: 0 <= i < k ==> grid[i].id != event.id
    requires !Locked(now, event)
    requires !AnyMatch(bookings, grid[k])
    requires Click(now, event, Reconcile(grid, bookings, user), bookings, user).Create?
    ensures var c := Click(now, event, Reconcile(grid, bookings, user), bookings, user);
            var after := Reconcile(grid, bookings + [Stored(c.request, id)], user);
            after[k].status == Booked && after[k].title == MyReservation
  {
    var r := Reconcile(grid, bookings, user);
    var c := Click(now, event, r, bookings, user);
    assert FindSlot(r, event.id) == Some(k);
    assert r[k] == grid[k];
    var b := Stored(c.request, id);
    var bs := bookings + [b];
    assert Matches(bs[|bookings|], grid[k]);
    assert FirstMatch(bs, grid[k]) == Some(|bookings|) by {
      forall j | 0 <= j < |bookings|
        ensures !Matches(bs[j], grid[k])
      {
        assert bs[j] == bookings[j];
      }
    }
  }

  /** Two grids with the same ids position by position are searched alike. */
  lemma {:induction false} SameIdsSameFind(a: seq<Slot>, b: seq<Slot>, id: SlotId)
    requires |a| == |b| && forall i :: 0 <= i < |a| ==> a[i].id == b[i].id
    ensures FindSlot(a, id) == FindSlot(b, id)
  {
    if FindSlot(a, id).Some? && FindSlot(b, id).Some? {
      var x, y := FindSlot(a, id).value, FindSlot(b, id).value;
      assert !(x < y) && !(y < x);
    }
  }

  /** Two slots that every booking matches alike have the same first match. */
  lemma {:induction false} FirstMatchSameSlot(bookings: seq<Booking>, s: Slot, s': Slot)
    requires forall b :: Matches(b, s) == Matches(b, s')
    ensures FirstMatch(bookings, s) == FirstMatch(bookings, s')
  {
    if FirstMatch(bookings, s).Some? && FirstMatch(bookings, s').Some? {
      var a, b := FirstMatch(bookings, s).value, FirstMatch(bookings, s').value;
      assert !(a < b) && !(b < a);
    }
  }

  /** Removing the only booking that matches a slot leaves none that does. */
  lemma RemoveOnlyMatch(bookings: seq<Booking>, j: nat, s: Slot)
    requires j < |bookings|
    requires forall m :: 0 <= m < |bookings| && m != j ==> !Matches(bookings[m], s)
    ensures !AnyMatch(bookings[..j] + bookings[j + 1..], s)
  {
    var rest := bookings[..j] + bookings[j + 1..];
    forall i | 0 <= i < |rest|
      ensures !Matches(rest[i], s)
    {
      if i < j {
        assert rest[i] == bookings[i];
      } else {
        assert rest[i] == bookings[i + 1];
      }
    }
  }

  /** A delete names the first booking matching the grid slot the click found. */
  lemma ClickDeleteNames(now: Instant, event: Slot, g: seq<Slot>, bookings: seq<Booking>, user: User, k: nat)
    requires k < |g| && g[k].id == event.id
    requires forall i :: 0 <= i < k ==> g[i].id != event.id
    requires Click(now, event, g, bookings, user).Delete?
    ensures FirstMatch(bookings, g[k]).Some?
    ensures Click(now, event, g, bookings, user) == Delete(bookings[FirstMatch(bookings, g[k]).value].bookingId, user.uid)
  {
    assert FindSlot(g, event.id) == Some(k);
  }

  /**
   * A delete sent from a reconciled grid names the first booking that
   * matches the slot as it was generated.
   */
  lemma ReconciledDelete(now: Instant, event: Slot, grid: seq<Slot>, bookings: seq<Booking>, user: User, k: nat)
    requires k < |grid| && grid[k].id == event.id
    requires forall i :: 0 <= i < k ==> grid[i].id != event.id
    requires Click(now, event, Reconcile(grid, bookings, user), bookings, user).Delete?
    ensures FirstMatch(bookings, grid[k]).Some?
    ensures Click(now, event, Reconcile(grid, bookings, user), bookings, user)
              == Delete(bookings[FirstMatch(bookings, grid[k]).value].bookingId, user.uid)
  {
    var r := Reconcile(grid, bookings, user);
    assert r[k].id == grid[k].id && r[k].start == grid[k].start && r[k].end == grid[k].end;
    ClickDeleteNames(now, event, r, bookings, user, k);
    FirstMatchSameSlot(bookings, r[k], grid[k]);
  }

  /**
   * Cancel round trip: when a click on a reconciled booked slot sends the
   * delete of booking `j`, the only booking matching that slot, and the
   * store removes it, reconciling the same grid again shows the slot as it
   * was generated.
   */
  lemma DeleteThenReconcileFrees(now: Instant, event: Slot, grid: seq<Slot>, bookings: seq<Booking>,
                                 user: User, k: nat, j: nat)
    requires k < |grid| && grid[k].id == event.id
    requires forall i :: 0 <= i < k ==> grid[i].id != event.id
    requires j < |bookings|
    requires forall m :: 0 <= m < |bookings| && m != j ==> !Matches(bookings[m], grid[k])
    requires Click(now, event, Reconcile(grid, bookings, user), bookings, user).Delete?
    ensures Click(now, event, Reconcile(grid, bookings, user), bookings, user)
              == Delete(bookings[j].bookingId, user.uid)
    ensures Reconcile(grid, bookings[..j] + bookings[j + 1..], user)[k] == grid[k]
  {
    ReconciledDelete(now, event, grid, bookings, user, k);
    assert FirstMatch(bookings, grid[k]) == Some(j);
    RemoveOnlyMatch(bookings, j, grid[k]);
  }
}
