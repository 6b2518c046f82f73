/**
 * The client's room-booking page: the list of the user's own bookings, the
 * booking built from the form (check-in 14:00, check-out 12:00), the form
 * reset, and the rule that only bookings not yet started may be deleted.
 */
module RoomBooking {
  import opened Options
  import opened Calendar
  import opened Seqs
  import opened Slots

  /** Check-in and check-out hours. */
  const CHECK_IN_HOUR: int := 14
  const CHECK_OUT_HOUR: int := 12

  /** A stored room booking. */
  datatype RoomBooking = RoomBooking(bookingId: string, period: Period, room: string, note: string, client: Client)

  /** The booking sent to the store, before it has an id. */
  datatype NewRoomBooking = NewRoomBooking(period: Period, room: string, note: string, client: Client)

  /** The form: two date inputs (empty until picked), the room select and the note. */
  datatype RoomForm = RoomForm(startFrom: Option<Day>, endAt: Option<Day>, room: string, note: string)

  /** What a click on "Delete" does. */
  datatype DeleteOutcome = SendDelete(bookingId: string, uid: string) | TooLate

  const EMPTY_FORM: RoomForm := RoomForm(None, None, "", "")

  /** Whether the booking belongs to the signed-in user, if any (`booking.client.uid === user?.uid`). */
  predicate Owned(viewer: Option<User>, b: RoomBooking)
  {
    viewer.Some? && b.client.uid == viewer.value.uid
  }

  /** `userBookings`: the bookings whose client uid is the user's, in store order. */
  function UserBookings(bookings: seq<RoomBooking>, viewer: Option<User>): (r: seq<RoomBooking>)
    ensures forall i :: 0 <= i < |r| ==> r[i] in bookings && viewer.Some? && r[i].client.uid == viewer.value.uid
    ensures forall i :: 0 <= i < |bookings| && viewer.Some? && bookings[i].client.uid == viewer.value.uid ==> bookings[i] in r
    ensures viewer.None? ==> r == []
  {
    var r := Filter(bookings, b => Owned(viewer, b));
    assert |r| > 0 ==> Owned(viewer, r[0]);
    r
  }

  /** The list keeps the store's order: listing two batches lists each in turn. */
  lemma UserBookingsAppend(a: seq<RoomBooking>, b: seq<RoomBooking>, viewer: Option<User>)
    ensures UserBookings(a + b, viewer) == UserBookings(a, viewer) + UserBookings(b, viewer)
  {
    FilterAppend(a, b, x => Owned(viewer, x));
  }

  /**
   * `handleAddBooking`.  The form's inputs are all `required`, so nothing is
   * submitted until a room and both dates are chosen; then the booking runs
   * from 14:00 on the start date to 12:00 on the end date, for the user.
   */
  function Submit(form: RoomForm, user: User): (r: Option<NewRoomBooking>)
    ensures r.None? <==> form.room == "" || form.startFrom.None? || form.endAt.None?
    ensures r.Some? ==>
              && DayOf(r.value.period.startFrom) == form.startFrom.value
              && r.value.period.startFrom - DayStart(form.startFrom.value) == 14 * HOUR
              && DayOf(r.value.period.endAt) == form.endAt.value
              && r.value.period.endAt - DayStart(form.endAt.value) == 12 * HOUR
              && r.value.room == form.room && r.value.note == form.note
              && r.value.client == Client(user.fullName, user.uid)
  {
    if form.room == "" || form.startFrom.None? || form.endAt.None? then None
    else
      Some(NewRoomBooking(
        Period(At(form.startFrom.value, CHECK_IN_HOUR), At(form.endAt.value, CHECK_OUT_HOUR)),
        form.room, form.note, Client(user.fullName, user.uid)))
  }

  /**
   * A stay of `n` nights lasts `n` days less two hours, so the booking ends
   * after it starts exactly when the end date is after the start date; the
   * form does not check this, and a same-day booking ends before it starts.
   */
  lemma StayLength(form: RoomForm, user: User)
    requires Submit(form, user).Some?
    ensures var p := Submit(form, user).value.period;
            && p.endAt - p.startFrom == (form.endAt.value - form.startFrom.value) * DAY - 2 * HOUR
            && (p.startFrom < p.endAt <==> form.startFrom.value < form.endAt.value)
  {
  }

  /** The form after the store's answer: cleared on "success", kept otherwise. */
  function AfterAdd(form: RoomForm, status: string): (r: RoomForm)
    ensures status == "success" ==> r == EMPTY_FORM
    ensures status != "success" ==> r == form
  {
    if status == "success" then EMPTY_FORM else form
  }

  /** A cleared form cannot be submitted again until it is filled in. */
  lemma ClearedFormBlocks(form: RoomForm, user: User)
    ensures Submit(AfterAdd(form, "success"), user).None?
    ensures Submit(AfterAdd(form, "error"), user) == Submit(form, user)
  {
  }

  /** `handleDeleteBooking`: the store is asked only while the booking has not started. */
  function DeleteAction(now: Instant, b: RoomBooking, user: User): (r: DeleteOutcome)
    ensures r.SendDelete? <==> b.period.startFrom > now
    ensures r.SendDelete? ==> r.bookingId == b.bookingId && r.uid == user.uid
  {
    if b.period.startFrom > now then SendDelete(b.bookingId, user.uid) else TooLate
  }

  /** `isUpcoming`: the Delete button is shown for bookings that start in the future. */
  predicate ShowDelete(now: Instant, b: RoomBooking)
  {
    b.period.startFrom > now
  }

  /**
   * The button and the handler agree at the same instant; once a booking
   * has started it stays undeletable, so a button clicked after the start
   * only produces the error.
   */
  lemma DeleteRule(now: Instant, later: Instant, b: RoomBooking, user: User)
    requires now <= later
    ensures ShowDelete(now, b) <==> DeleteAction(now, b, user).SendDelete?
    ensures DeleteAction(now, b, user) == TooLate ==> DeleteAction(later, b, user) == TooLate
    ensures ShowDelete(now, b) && b.period.startFrom <= later ==> DeleteAction(later, b, user) == TooLate
  {
  }

  /**
   * Every delete the page can send names one of the user's own bookings
   * and carries the user's uid.
   */
  lemma DeletesAreOwn(now: Instant, bookings: seq<RoomBooking>, user: User, i: nat)
    requires i < |UserBookings(bookings, Some(user))|
    requires DeleteAction(now, UserBookings(bookings, Some(user))[i], user).SendDelete?
    ensures var b := UserBookings(bookings, Some(user))[i];
            && b in bookings && b.client.uid == user.uid
            && DeleteAction(now, b, user) == SendDelete(b.bookingId, b.client.uid)
  {
  }
}
