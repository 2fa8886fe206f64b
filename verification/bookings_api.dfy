/**
 * `/api/bookings`: GET lists bookings, filtered by equality on the query
 * parameters and enriched with their stadium, time slot and user; POST
 * validates a booking request and inserts it unless the stadium already
 * has a booking for that date and slot.
 */
module Bookings {
  import opened Common
  import opened Validation
  import opened Store

  // ---------------------------------------------------------------------
  // GET

  /** The `userId`, `date` and `stadium` search parameters (None: absent). */
  datatype BookingQuery = BookingQuery(userId: Option<string>, date: Option<string>, stadium: Option<string>)

  /** The AND of the equality conditions of the query; the user id is
      compared after trimming. */
  predicate Selects(q: BookingQuery, b: Booking) {
    (Given(q.userId) ==> b.userId == Trim(q.userId.value))
    && (Given(q.date) ==> b.date == q.date.value)
    && (Given(q.stadium) ==> b.stadiumId == q.stadium.value)
  }

  /** The documents the query returns, in store order. */
  function Select(bs: seq<Booking>, q: BookingQuery): (r: seq<Booking>)
    ensures |r| <= |bs|
    ensures forall b :: b in r <==> b in bs && Selects(q, b)
  {
    if bs == [] then []
    else if Selects(q, bs[0]) then [bs[0]] + Select(bs[1..], q)
    else Select(bs[1..], q)
  }

  /** With no condition the whole collection comes back, in order. */
  lemma {:induction false} SelectEverything(bs: seq<Booking>, q: BookingQuery)
    requires !Given(q.userId) && !Given(q.date) && !Given(q.stadium)
    ensures Select(bs, q) == bs
  {
    if bs != [] {
      SelectEverything(bs[1..], q);
      assert bs == [bs[0]] + bs[1..];
    }
  }

  function DateOf(b: Booking): string { b.date }

  datatype StadiumPart = StadiumPart(name: string, sportId: string)
  datatype SlotPart = SlotPart(time: string, period: Option<string>)
  datatype UserPart = UserPart(username: string, fullName: string, clubName: string,
                               email: string, role: string, studentId: string)

  /** One row of the reply: the booking and its `stadiums`, `time_slots`
      and `user` objects, each `null` (None) when the document is missing. */
  datatype BookingRow = BookingRow(booking: Booking, stadiums: Option<StadiumPart>,
                                   timeSlots: Option<SlotPart>, user: Option<UserPart>)

  /** The three document references of a booking can be built. */
  predicate RefsOk(b: Booking) {
    DocRefOk(b.stadiumId) && DocRefOk(b.timeSlotId) && DocRefOk(b.userId)
  }

  /** The enrichment of one booking: never drops it, and fills each part
      from the document its reference names, when there is one. */
  function Enrich(b: Booking, stadiums: seq<Stadium>, slots: seq<TimeSlot>, users: seq<User>): (r: BookingRow)
    ensures r.booking == b
    ensures r.stadiums.Some? <==> exists s :: s in stadiums && DocKey(b.stadiumId) == Some(s.id)
    ensures r.stadiums.Some? ==>
      exists s :: s in stadiums && DocKey(b.stadiumId) == Some(s.id) && r.stadiums.value == StadiumPart(s.name, s.sportId)
    ensures r.timeSlots.Some? <==> exists t :: t in slots && DocKey(b.timeSlotId) == Some(t.id)
    ensures r.timeSlots.Some? ==>
      exists t :: t in slots && DocKey(b.timeSlotId) == Some(t.id) && r.timeSlots.value == SlotPart(t.time, t.period)
    ensures r.user.Some? <==> exists u :: u in users && DocKey(b.userId) == Some(u.id)
    ensures r.user.Some? ==>
      exists u :: u in users && DocKey(b.userId) == Some(u.id)
        && r.user.value == UserPart(u.username, u.fullName, u.clubName, u.email, u.role, u.studentId)
  {
    var s := GetStadium(stadiums, b.stadiumId);
    var t := GetSlot(slots, b.timeSlotId);
    var u := GetUser(users, b.userId);
    BookingRow(
      b,
      if s.Some? then Some(StadiumPart(s.value.name, s.value.sportId)) else None,
      if t.Some? then Some(SlotPart(t.value.time, t.value.period)) else None,
      if u.Some? then Some(UserPart(u.value.username, u.value.fullName, u.value.clubName,
                                    u.value.email, u.value.role, u.value.studentId))
      else None)
  }

  function BookingsOf(rows: seq<BookingRow>): (r: seq<Booking>)
    ensures |r| == |rows| && forall i :: 0 <= i < |rows| ==> r[i] == rows[i].booking
  {
    seq(|rows|, i requires 0 <= i < |rows| => rows[i].booking)
  }

  /** The selected bookings in reply order: newest first when a user is
      given (a stable sort), store order otherwise. */
  function Ordered(bookings: seq<Booking>, q: BookingQuery): (r: seq<Booking>)
    ensures multiset(r) == multiset(Select(bookings, q))
    ensures forall b :: b in r <==> b in bookings && Selects(q, b)
    ensures Given(q.userId) ==> SortedDesc(r, DateOf)
    ensures !Given(q.userId) ==> r == Select(bookings, q)
  {
    var selected := Select(bookings, q);
    SortDescSorted(selected, DateOf);
    var r := if Given(q.userId) then SortDesc(selected, DateOf) else selected;
    assert forall b :: b in r <==> b in multiset(selected);
    r
  }

  function EnrichAll(bs: seq<Booking>, stadiums: seq<Stadium>, slots: seq<TimeSlot>, users: seq<User>): (r: seq<BookingRow>)
    ensures BookingsOf(r) == bs
    ensures forall i :: 0 <= i < |r| ==> r[i] == Enrich(bs[i], stadiums, slots, users)
  {
    var r := seq(|bs|, i requires 0 <= i < |bs| => Enrich(bs[i], stadiums, slots, users));
    assert BookingsOf(r) == bs;
    r
  }

  /** GET /api/bookings over the current collections. */
  function GetBookings(q: BookingQuery, bookings: seq<Booking>, stadiums: seq<Stadium>,
                       slots: seq<TimeSlot>, users: seq<User>): (r: Response<seq<BookingRow>>)
    ensures (r.Fail? && r.status == 400) <==> Given(q.userId) && Trim(q.userId.value) == ""
    ensures r.Fail? && r.status == 400 ==> r.error == "Invalid user ID"
    ensures r.Fail? && r.status != 400 ==>
      r.status == 500 && r.error == "Failed to fetch bookings"
      && exists b :: b in bookings && Selects(q, b) && !RefsOk(b)
    ensures !(Given(q.userId) && Trim(q.userId.value) == "")
            && (exists b :: b in bookings && Selects(q, b) && !RefsOk(b)) ==>
      r == Fail(500, "Failed to fetch bookings", [])
    ensures r.Ok? ==> forall b :: b in BookingsOf(r.body) <==> b in bookings && Selects(q, b)
    ensures r.Ok? ==> multiset(BookingsOf(r.body)) == multiset(Select(bookings, q))
    ensures r.Ok? && Given(q.userId) ==> SortedDesc(BookingsOf(r.body), DateOf)
    ensures r.Ok? && !Given(q.userId) ==> BookingsOf(r.body) == Select(bookings, q)
    ensures r.Ok? ==> forall i :: 0 <= i < |r.body| ==>
      r.body[i] == Enrich(r.body[i].booking, stadiums, slots, users)
  {
    if Given(q.userId) && Trim(q.userId.value) == "" then Fail(400, "Invalid user ID", [])
    else
      var ordered := Ordered(bookings, q);
      if exists i :: 0 <= i < |ordered| && !RefsOk(ordered[i]) then
        Fail(500, "Failed to fetch bookings", [])
      else
        Ok(EnrichAll(ordered, stadiums, slots, users))
  }

  /** Every selected booking appears in the reply (none is dropped for a
      missing stadium, slot or user), with `null` for each missing part. */
  lemma EnrichmentKeepsEveryBooking(q: BookingQuery, bookings: seq<Booking>, stadiums: seq<Stadium>,
                                    slots: seq<TimeSlot>, users: seq<User>, b: Booking)
    requires GetBookings(q, bookings, stadiums, slots, users).Ok?
    requires b in bookings && Selects(q, b)
    ensures exists row :: (row in GetBookings(q, bookings, stadiums, slots, users).body && row.booking == b
      && (row.stadiums.None? <==> forall s :: s in stadiums ==> DocKey(b.stadiumId) != Some(s.id))
      && (row.timeSlots.None? <==> forall t :: t in slots ==> DocKey(b.timeSlotId) != Some(t.id))
      && (row.user.None? <==> forall u :: u in users ==> DocKey(b.userId) != Some(u.id)))
  {
    var rows := GetBookings(q, bookings, stadiums, slots, users).body;
    assert b in BookingsOf(rows);
    var i :| 0 <= i < |rows| && BookingsOf(rows)[i] == b;
    var row := rows[i];
    assert row == Enrich(b, stadiums, slots, users);
    EnrichNulls(b, stadiums, slots, users);
    assert row in rows;
  }

  /** A part is `null` exactly when no document of its collection is named. */
  lemma EnrichNulls(b: Booking, stadiums: seq<Stadium>, slots: seq<TimeSlot>, users: seq<User>)
    ensures var row := Enrich(b, stadiums, slots, users);
      row.booking == b
      && (row.stadiums.None? <==> forall s :: s in stadiums ==> DocKey(b.stadiumId) != Some(s.id))
      && (row.timeSlots.None? <==> forall t :: t in slots ==> DocKey(b.timeSlotId) != Some(t.id))
      && (row.user.None? <==> forall u :: u in users ==> DocKey(b.userId) != Some(u.id))
  {
  }

  /** POST stores the ids as sent, so a booking can hold the stadium id
      "s1/"; the listing then shows stadium "s1", since the trailing '/'
      is dropped from the document path. */
  lemma SlashedStadiumRef(b: Booking, id: string, stadiums: seq<Stadium>, slots: seq<TimeSlot>, users: seq<User>)
    requires id != "" && '/' !in id && b.stadiumId == id + "/"
    ensures DocRefOk(b.stadiumId)
    ensures Enrich(b, stadiums, slots, users).stadiums.Some? <==> exists s :: s in stadiums && s.id == id
  {
    EdgeSlashesDropped(id);
  }

  // ---------------------------------------------------------------------
  // POST

  /** Some booking already holds this stadium, date and slot. */
  predicate SlotTaken(bs: seq<Booking>, stadiumId: string, date: string, slotId: string) {
    exists i :: 0 <= i < |bs| && bs[i].stadiumId == stadiumId && bs[i].date == date && bs[i].timeSlotId == slotId
  }

  /** No two bookings share their (stadium, date, slot). */
  predicate NoDoubleBooking(bs: seq<Booking>) {
    forall i, j :: 0 <= i < j < |bs| ==>
      !(bs[i].stadiumId == bs[j].stadiumId && bs[i].date == bs[j].date && bs[i].timeSlotId == bs[j].timeSlotId)
  }

  /** The document a valid request stores, from the sanitised data. */
  function NewBooking(data: map<string, Json>, id: string): Booking {
    Booking(id, TextAt(data, "userId"), TextAt(data, "stadiumId"), TextAt(data, "date"), TextAt(data, "timeSlotId"))
  }

  const AlreadyBooked := "This time slot is already booked for this stadium"

  /** POST /api/bookings: the reply, given the request body (None when the
      body is not JSON) and the id the store assigns to a new document. */
  function PostBookingResult(bookings: seq<Booking>, body: Option<Json>, freshId: string): (r: Response<Booking>)
    ensures body.None? ==> r == Fail(500, "Failed to create booking", [])
    ensures body.Some? && ValidateData(Parse(BookingShape(), body.value)).Invalid? ==>
      r == Fail(400, "Validation failed", ValidateData(Parse(BookingShape(), body.value)).errors)
    ensures body.Some? && ValidateData(Parse(BookingShape(), body.value)).Valid? ==>
      var x := NewBooking(Sanitized(ValidateData(Parse(BookingShape(), body.value)).data), freshId);
      (r.Ok? <==> !SlotTaken(bookings, x.stadiumId, x.date, x.timeSlotId))
      && (SlotTaken(bookings, x.stadiumId, x.date, x.timeSlotId) ==> r == Fail(400, AlreadyBooked, []))
      && (r.Ok? ==> r.body == x)
    ensures r.Fail? && r.status == 400 && r.details == [] ==> r.error == AlreadyBooked
    ensures r.Ok? ==> (r.body.id == freshId
      && !SlotTaken(bookings, r.body.stadiumId, r.body.date, r.body.timeSlotId))
    ensures r.Ok? ==> ValidateData(Parse(BookingShape(), body.value)).Valid?
  {
    if body.None? then Fail(500, "Failed to create booking", [])
    else
      var v := ValidateData(Parse(BookingShape(), body.value));
      if v.Invalid? then Fail(400, "Validation failed", v.errors)
      else
        var b := NewBooking(Sanitized(v.data), freshId);
        if SlotTaken(bookings, b.stadiumId, b.date, b.timeSlotId) then
          Fail(400, AlreadyBooked, [])
        else Ok(b)
  }

  /** Sequential POSTs never double-book a slot. */
  lemma PostKeepsNoDoubleBooking(bookings: seq<Booking>, body: Option<Json>, freshId: string)
    requires NoDoubleBooking(bookings)
    requires PostBookingResult(bookings, body, freshId).Ok?
    ensures NoDoubleBooking(bookings + [PostBookingResult(bookings, body, freshId).body])
  {
    var b := PostBookingResult(bookings, body, freshId).body;
    var bs := bookings + [b];
    forall i, j | 0 <= i < j < |bs|
      ensures !(bs[i].stadiumId == bs[j].stadiumId && bs[i].date == bs[j].date && bs[i].timeSlotId == bs[j].timeSlotId)
    {
      if j == |bookings| {
        assert bs[i] == bookings[i];
      }
    }
  }

  /** A request whose text fields are free of angle brackets and edge
      whitespace is stored with exactly the requested user, stadium, date
      and slot. */
  lemma PostStoresRequest(bookings: seq<Booking>, m: map<string, Json>, freshId: string)
    requires ValidateData(Parse(BookingShape(), JObj(m))).Valid?
    requires HasText(m, "userId") && HasText(m, "stadiumId") && HasText(m, "timeSlotId") && HasText(m, "date")
    requires SanitizeString(m["userId"].s) == m["userId"].s
    requires SanitizeString(m["stadiumId"].s) == m["stadiumId"].s
    requires SanitizeString(m["timeSlotId"].s) == m["timeSlotId"].s
    requires !SlotTaken(bookings, m["stadiumId"].s, m["date"].s, m["timeSlotId"].s)
    ensures PostBookingResult(bookings, Some(JObj(m)), freshId)
      == Ok(Booking(freshId, m["userId"].s, m["stadiumId"].s, m["date"].s, m["timeSlotId"].s))
  {
    var x := Booking(freshId, m["userId"].s, m["stadiumId"].s, m["date"].s, m["timeSlotId"].s);
    assert SanitizeString(m["date"].s) == m["date"].s by {
      BookingShapeAccepts(m);
      SanitizeKeepsPatternText(m["date"].s);
    }
    SanitizedRequest(m, freshId);
    PostAccepts(bookings, m, freshId, x);
  }

  /** Sanitising a validated request whose texts are already clean
      changes none of the stored fields. */
  lemma SanitizedRequest(m: map<string, Json>, freshId: string)
    requires ValidateData(Parse(BookingShape(), JObj(m))).Valid?
    requires HasText(m, "userId") && HasText(m, "stadiumId") && HasText(m, "timeSlotId") && HasText(m, "date")
    requires SanitizeString(m["userId"].s) == m["userId"].s
    requires SanitizeString(m["stadiumId"].s) == m["stadiumId"].s
    requires SanitizeString(m["timeSlotId"].s) == m["timeSlotId"].s
    requires SanitizeString(m["date"].s) == m["date"].s
    ensures NewBooking(Sanitized(ValidateData(Parse(BookingShape(), JObj(m))).data), freshId)
      == Booking(freshId, m["userId"].s, m["stadiumId"].s, m["date"].s, m["timeSlotId"].s)
  {
    var d := ValidateData(Parse(BookingShape(), JObj(m))).data;
    BookingData(m);
    SanitizedTextAt(d, "userId");
    SanitizedTextAt(d, "stadiumId");
    SanitizedTextAt(d, "date");
    SanitizedTextAt(d, "timeSlotId");
  }

  lemma PostAccepts(bookings: seq<Booking>, m: map<string, Json>, freshId: string, x: Booking)
    requires ValidateData(Parse(BookingShape(), JObj(m))).Valid?
    requires NewBooking(Sanitized(ValidateData(Parse(BookingShape(), JObj(m))).data), freshId) == x
    requires !SlotTaken(bookings, x.stadiumId, x.date, x.timeSlotId)
    ensures PostBookingResult(bookings, Some(JObj(m)), freshId) == Ok(x)
  {
  }

  /** The steps of POST /api/bookings up to the insert: parse, validate,
      sanitise, look for a booking of the same stadium, date and slot. */
  method HandlePost(bookings: seq<Booking>, body: Option<Json>, freshId: string) returns (r: Response<Booking>)
    ensures r == PostBookingResult(bookings, body, freshId)
  {
    if body.None? {
      return Fail(500, "Failed to create booking", []);
    }
    var validation := ValidateData(Parse(BookingShape(), body.value));
    if validation.Invalid? {
      return Fail(400, "Validation failed", validation.errors);
    }
    var data := SanitizeObject(validation.data);
    var booking := NewBooking(data, freshId);
    if SlotTaken(bookings, booking.stadiumId, booking.date, booking.timeSlotId) {
      return Fail(400, AlreadyBooked, []);
    }
    return Ok(booking);
  }

  /** POST /api/bookings against the database: `addDoc` on success. */
  method PostBooking(db: Db, body: Option<Json>, freshId: string) returns (r: Response<Booking>)
    requires db.Valid() && freshId !in BookingIds(db.bookings)
    modifies db
    ensures db.Valid()
    ensures r == PostBookingResult(old(db.bookings), body, freshId)
    ensures r.Ok? ==> db.bookings == old(db.bookings) + [r.body]
    ensures r.Fail? ==> db.bookings == old(db.bookings)
    ensures NoDoubleBooking(old(db.bookings)) ==> NoDoubleBooking(db.bookings)
    ensures db.stadiums == old(db.stadiums) && db.timeSlots == old(db.timeSlots)
    ensures db.users == old(db.users) && db.matches == old(db.matches)
  {
    var bookings := db.bookings;
    r := HandlePost(bookings, body, freshId);
    if r.Ok? {
      if NoDoubleBooking(bookings) {
        PostKeepsNoDoubleBooking(bookings, body, freshId);
      }
      db.AddBooking(r.body);
    }
  }
}
