/**
 * `/api/friendly-matches`: GET lists matches (optionally one host's),
 * newest first, with stadium, host and guest details and defaults for
 * fields older documents lack; POST validates a match and creates it after
 * a fixed chain of checks; PUT joins, leaves or updates a match; DELETE
 * removes one.
 */
module FriendlyMatches {
  import opened Common
  import opened Validation
  import opened Store

  // ---------------------------------------------------------------------
  // GET

  /** The `userId` search parameter selects the matches it hosts
      (compared as sent, without trimming). */
  predicate HostSelects(userId: Option<string>, m: FriendlyMatch) {
    Given(userId) ==> m.hostId == userId.value
  }

  function SelectHosted(ms: seq<FriendlyMatch>, userId: Option<string>): (r: seq<FriendlyMatch>)
    ensures |r| <= |ms|
    ensures forall m :: m in r <==> m in ms && HostSelects(userId, m)
  {
    if ms == [] then []
    else if HostSelects(userId, ms[0]) then [ms[0]] + SelectHosted(ms[1..], userId)
    else SelectHosted(ms[1..], userId)
  }

  /** Without a user every match is listed. */
  lemma {:induction false} SelectHostedEverything(ms: seq<FriendlyMatch>, userId: Option<string>)
    requires !Given(userId)
    ensures SelectHosted(ms, userId) == ms
  {
    if ms != [] {
      SelectHostedEverything(ms[1..], userId);
      assert ms == [ms[0]] + ms[1..];
    }
  }

  function MatchDateOf(m: FriendlyMatch): string { m.date }

  datatype StadiumInfo = StadiumInfo(id: string, name: string, capacity: Option<int>)
  datatype PersonInfo = PersonInfo(id: string, name: string, email: string)

  /** One listed match: the document, its `stadium`, `host` and `guest`
      objects (None for `null`), and the four fields shown with defaults. */
  datatype MatchRow = MatchRow(doc: FriendlyMatch, stadium: Option<StadiumInfo>, host: Option<PersonInfo>,
                               guest: Option<PersonInfo>, maxPlayers: int, currentPlayers: int,
                               skillLevel: string, isPublic: bool)

  /** A user as shown: the full name, or the username when it is empty. */
  function PersonOf(id: string, u: User): (p: PersonInfo)
    ensures p.id == id && p.email == u.email
    ensures p.name == (if u.fullName != "" then u.fullName else u.username)
  {
    PersonInfo(id, TextOr(Some(u.fullName), u.username), u.email)
  }

  /** The document references a listed match needs can be built (the
      guest's only when the match has one). */
  predicate RowRefsOk(m: FriendlyMatch) {
    DocRefOk(m.stadiumId) && DocRefOk(m.hostId) && (Given(m.guestId) ==> DocRefOk(m.guestId.value))
  }

  /** The `stadium` object of a listed match: the stadium the reference
      names, shown under the id as stored; `null` when none is named. */
  function StadiumShown(stadiums: seq<Stadium>, ref: string): (r: Option<StadiumInfo>)
    ensures r.Some? <==> exists s :: s in stadiums && DocKey(ref) == Some(s.id)
    ensures GetStadium(stadiums, ref).Some? ==>
      r == Some(StadiumInfo(ref, GetStadium(stadiums, ref).value.name, GetStadium(stadiums, ref).value.capacity))
  {
    var s := GetStadium(stadiums, ref);
    if s.Some? then Some(StadiumInfo(ref, s.value.name, s.value.capacity)) else None
  }

  /** The `host` or `guest` object: the user the reference names, shown
      under the id as stored; `null` when none is named. */
  function PersonShown(users: seq<User>, ref: string): (r: Option<PersonInfo>)
    ensures r.Some? <==> exists u :: u in users && DocKey(ref) == Some(u.id)
    ensures GetUser(users, ref).Some? ==> r == Some(PersonOf(ref, GetUser(users, ref).value))
  {
    var u := GetUser(users, ref);
    if u.Some? then Some(PersonOf(ref, u.value)) else None
  }

  /** The listing of one match: the `stadium`, `host` and `guest` objects
      from the documents the references name, and `x || default` for the
      four fields older documents may lack. */
  function EnrichMatch(m: FriendlyMatch, stadiums: seq<Stadium>, users: seq<User>): (r: MatchRow)
    ensures r.doc == m
    ensures r.stadium == StadiumShown(stadiums, m.stadiumId) && r.host == PersonShown(users, m.hostId)
    ensures r.guest == if Given(m.guestId) then PersonShown(users, m.guestId.value) else None
    ensures m.maxPlayers.None? || m.maxPlayers == Some(0) ==> r.maxPlayers == 10
    ensures m.maxPlayers.Some? && m.maxPlayers.value != 0 ==> r.maxPlayers == m.maxPlayers.value
    ensures m.currentPlayers.Some? && m.currentPlayers.value != 0 ==> r.currentPlayers == m.currentPlayers.value
    ensures (m.currentPlayers.None? || m.currentPlayers == Some(0)) && m.players.Some? ==>
      r.currentPlayers == |m.players.value|
    ensures (m.currentPlayers.None? || m.currentPlayers == Some(0)) && m.players.None? ==> r.currentPlayers == 1
    ensures m.skillLevel.None? || m.skillLevel == Some("") ==> r.skillLevel == "any"
    ensures m.skillLevel.Some? && m.skillLevel.value != "" ==> r.skillLevel == m.skillLevel.value
    ensures m.isPublic.None? ==> r.isPublic
    ensures m.isPublic.Some? ==> r.isPublic == m.isPublic.value
  {
    MatchRow(
      m,
      StadiumShown(stadiums, m.stadiumId),
      PersonShown(users, m.hostId),
      if Given(m.guestId) then PersonShown(users, m.guestId.value) else None,
      NumOr(m.maxPlayers, 10),
      NumOr(m.currentPlayers, if m.players.Some? then |m.players.value| else 1),
      TextOr(m.skillLevel, "any"),
      if m.isPublic.Some? then m.isPublic.value else true)
  }

  function MatchesOf(rows: seq<MatchRow>): (r: seq<FriendlyMatch>)
    ensures |r| == |rows| && forall i :: 0 <= i < |rows| ==> r[i] == rows[i].doc
  {
    seq(|rows|, i requires 0 <= i < |rows| => rows[i].doc)
  }

  function EnrichMatches(ms: seq<FriendlyMatch>, stadiums: seq<Stadium>, users: seq<User>): (r: seq<MatchRow>)
    ensures MatchesOf(r) == ms
    ensures forall i :: 0 <= i < |r| ==> r[i] == EnrichMatch(ms[i], stadiums, users)
  {
    var r := seq(|ms|, i requires 0 <= i < |ms| => EnrichMatch(ms[i], stadiums, users));
    assert MatchesOf(r) == ms;
    r
  }

  /** The matches sorted newest first (a stable sort on the date text). */
  function NewestFirst(ms: seq<FriendlyMatch>): (r: seq<FriendlyMatch>)
    ensures multiset(r) == multiset(ms)
    ensures forall m :: m in r <==> m in ms
    ensures SortedDesc(r, MatchDateOf)
  {
    SortDescSorted(ms, MatchDateOf);
    var r := SortDesc(ms, MatchDateOf);
    assert forall m :: m in r <==> m in multiset(ms);
    r
  }

  /** GET /api/friendly-matches: the selected matches, newest first, each
      with its details. */
  function GetMatches(userId: Option<string>, matches: seq<FriendlyMatch>, stadiums: seq<Stadium>,
                      users: seq<User>): (r: Response<seq<MatchRow>>)
    ensures (forall m :: m in matches ==> !HostSelects(userId, m)) ==> r == Ok([])
    ensures r.Fail? <==> exists m :: m in matches && HostSelects(userId, m) && !RowRefsOk(m)
    ensures r.Fail? ==> r == Fail(500, "Failed to fetch friendly matches", [])
    ensures r.Ok? ==> forall m :: m in MatchesOf(r.body) <==> m in matches && HostSelects(userId, m)
    ensures r.Ok? ==> multiset(MatchesOf(r.body)) == multiset(SelectHosted(matches, userId))
    ensures r.Ok? ==> SortedDesc(MatchesOf(r.body), MatchDateOf)
    ensures r.Ok? ==> forall i :: 0 <= i < |r.body| ==> r.body[i] == EnrichMatch(r.body[i].doc, stadiums, users)
  {
    var selected := SelectHosted(matches, userId);
    if selected == [] then Ok([])
    else
      assert selected[0] in selected;
      var sorted := NewestFirst(selected);
      if forall m :: m in sorted ==> RowRefsOk(m) then Ok(EnrichMatches(sorted, stadiums, users))
      else Fail(500, "Failed to fetch friendly matches", [])
  }

  // ---------------------------------------------------------------------
  // POST

  /** How the booking check of POST decides that a booking holds the
      match's time: as written, the booking's `time_slot_id` is compared
      with the HH:MM time itself; the corrected rule compares the time of
      the slot the booking refers to. */
  datatype SlotRule = SlotIdIsTime | SlotTimeIsTime

  predicate SlotMeans(rule: SlotRule, slots: seq<TimeSlot>, slotId: string, time: string) {
    match rule
    case SlotIdIsTime => slotId == time
    case SlotTimeIsTime => FindSlot(slots, slotId).Some? && FindSlot(slots, slotId).value.time == time
  }

  /** Some booking holds the stadium on that date at that time. */
  predicate BookedAt(rule: SlotRule, bookings: seq<Booking>, slots: seq<TimeSlot>,
                     stadiumId: string, date: string, time: string) {
    exists i :: 0 <= i < |bookings| && bookings[i].stadiumId == stadiumId && bookings[i].date == date
      && SlotMeans(rule, slots, bookings[i].timeSlotId, time)
  }

  /** A match still holds its slot while `pending` or `confirmed`. */
  predicate Active(m: FriendlyMatch) { m.status == "pending" || m.status == "confirmed" }

  predicate MatchAt(ms: seq<FriendlyMatch>, stadiumId: string, date: string, time: string) {
    exists i :: 0 <= i < |ms| && ms[i].stadiumId == stadiumId && ms[i].date == date && ms[i].time == time
      && Active(ms[i])
  }

  /** No two active matches share a stadium, date and time. */
  predicate ActiveExclusive(ms: seq<FriendlyMatch>) {
    forall i, j :: 0 <= i < j < |ms| && Active(ms[i]) && Active(ms[j]) ==>
      !(ms[i].stadiumId == ms[j].stadiumId && ms[i].date == ms[j].date && ms[i].time == ms[j].time)
  }

  /** `maxPlayers > stadium.capacity`; a stadium without a capacity
      compares false. */
  predicate OverCapacity(maxPlayers: Option<int>, s: Stadium) {
    maxPlayers.Some? && s.capacity.Some? && maxPlayers.value > s.capacity.value
  }

  function CapacityMessage(maxPlayers: int, capacity: int): string {
    "Maximum players (" + IntToString(maxPlayers) + ") cannot exceed stadium capacity (" + IntToString(capacity) + ")"
  }

  function BookedMessage(name: string, time: string, date: string): string {
    "Stadium \"" + name + "\" is already booked at " + time + " on " + date
  }

  function MatchTakenMessage(name: string, time: string, date: string): string {
    "Stadium \"" + name + "\" already has a friendly match at " + time + " on " + date
  }

  /** The document POST stores, from the sanitised data: the host is the
      only player, the status is `pending`, and absent optional fields take
      their defaults. */
  function NewMatch(d: map<string, Json>, id: string): FriendlyMatch {
    FriendlyMatch(
      id, TextAt(d, "hostId"), TextAt(d, "stadiumId"), TextAt(d, "date"), TextAt(d, "time"),
      TextAt(d, "team1"), TextOr(OptText(d, "team2"), "Open"), TextAt(d, "sportId"),
      Some(NumberAt(d, "maxPlayers")), Some(NumOr(OptNumber(d, "currentPlayers"), 1)),
      Some([TextAt(d, "hostId")]), None, TextOr(OptText(d, "description"), ""),
      Some(TextOr(OptText(d, "skillLevel"), "any")),
      Some(if OptBool(d, "isPublic").Some? then OptBool(d, "isPublic").value else true),
      "pending")
  }

  /** The reply of a successful POST: the stored match and its stadium. */
  datatype Created = Created(doc: FriendlyMatch, stadium: StadiumInfo)

  /** The checks POST runs on a valid request, in order: the stadium
      reference, the stadium's existence, its capacity, the bookings, the
      active matches. */
  function CheckCandidate(rule: SlotRule, x: FriendlyMatch, matches: seq<FriendlyMatch>, bookings: seq<Booking>,
                          stadiums: seq<Stadium>, slots: seq<TimeSlot>): (r: Response<Created>)
    ensures !DocRefOk(x.stadiumId) ==> r == Fail(500, "Failed to create friendly match", [])
    ensures r.Fail? && r.status == 404 <==>
      DocRefOk(x.stadiumId) && forall s :: s in stadiums ==> DocKey(x.stadiumId) != Some(s.id)
    ensures r.Fail? && r.status == 404 ==> r.error == "Stadium not found"
    ensures r.Ok? <==>
      DocRefOk(x.stadiumId) && GetStadium(stadiums, x.stadiumId).Some?
      && !OverCapacity(x.maxPlayers, GetStadium(stadiums, x.stadiumId).value)
      && !BookedAt(rule, bookings, slots, x.stadiumId, x.date, x.time)
      && !MatchAt(matches, x.stadiumId, x.date, x.time)
    ensures r.Ok? ==> r.body.doc == x && r.body.stadium.id == x.stadiumId
    ensures DocRefOk(x.stadiumId) && GetStadium(stadiums, x.stadiumId).Some? ==>
      var s := GetStadium(stadiums, x.stadiumId).value;
      (OverCapacity(x.maxPlayers, s) ==>
        r == Fail(400, CapacityMessage(x.maxPlayers.value, s.capacity.value), []))
      && (!OverCapacity(x.maxPlayers, s) && BookedAt(rule, bookings, slots, x.stadiumId, x.date, x.time) ==>
        r == Fail(400, BookedMessage(s.name, x.time, x.date), []))
      && (!OverCapacity(x.maxPlayers, s) && !BookedAt(rule, bookings, slots, x.stadiumId, x.date, x.time)
          && MatchAt(matches, x.stadiumId, x.date, x.time) ==>
        r == Fail(400, MatchTakenMessage(s.name, x.time, x.date), []))
  {
    if !DocRefOk(x.stadiumId) then Fail(500, "Failed to create friendly match", [])
    else
      var s := GetStadium(stadiums, x.stadiumId);
      if s.None? then Fail(404, "Stadium not found", [])
      else
        if OverCapacity(x.maxPlayers, s.value) then
          Fail(400, CapacityMessage(x.maxPlayers.value, s.value.capacity.value), [])
        else if BookedAt(rule, bookings, slots, x.stadiumId, x.date, x.time) then
          Fail(400, BookedMessage(s.value.name, x.time, x.date), [])
        else if MatchAt(matches, x.stadiumId, x.date, x.time) then
          Fail(400, MatchTakenMessage(s.value.name, x.time, x.date), [])
        else Ok(Created(x, StadiumInfo(x.stadiumId, s.value.name, s.value.capacity)))
  }

  /** POST /api/friendly-matches: the reply, given the body (None when it
      is not JSON), the booking rule and the id the store assigns. */
  function PostMatchResult(rule: SlotRule, matches: seq<FriendlyMatch>, bookings: seq<Booking>,
                           stadiums: seq<Stadium>, slots: seq<TimeSlot>, body: Option<Json>,
                           freshId: string): (r: Response<Created>)
    ensures body.None? ==> r == Fail(500, "Failed to create friendly match", [])
    ensures body.Some? && ValidateData(Parse(FriendlyMatchShape(), body.value)).Invalid? ==>
      r == Fail(400, "Validation failed", ValidateData(Parse(FriendlyMatchShape(), body.value)).errors)
    ensures body.Some? && ValidateData(Parse(FriendlyMatchShape(), body.value)).Valid? ==>
      r == CheckCandidate(rule, NewMatch(Sanitized(ValidateData(Parse(FriendlyMatchShape(), body.value)).data), freshId),
                          matches, bookings, stadiums, slots)
    ensures r.Ok? ==> ValidateData(Parse(FriendlyMatchShape(), body.value)).Valid?
    ensures r.Ok? ==>
      var x := r.body.doc;
      x.id == freshId && x.status == "pending" && x.players == Some([x.hostId]) && x.guestId.None?
      && GetStadium(stadiums, x.stadiumId).Some?
      && !OverCapacity(x.maxPlayers, GetStadium(stadiums, x.stadiumId).value)
      && !BookedAt(rule, bookings, slots, x.stadiumId, x.date, x.time)
      && !MatchAt(matches, x.stadiumId, x.date, x.time)
  {
    if body.None? then Fail(500, "Failed to create friendly match", [])
    else
      var v := ValidateData(Parse(FriendlyMatchShape(), body.value));
      if v.Invalid? then Fail(400, "Validation failed", v.errors)
      else CheckCandidate(rule, NewMatch(Sanitized(v.data), freshId), matches, bookings, stadiums, slots)
  }

  /** Adding a match whose slot no active match holds keeps active
      matches exclusive. */
  lemma ActiveExclusiveAppend(matches: seq<FriendlyMatch>, x: FriendlyMatch)
    requires ActiveExclusive(matches) && !MatchAt(matches, x.stadiumId, x.date, x.time)
    ensures ActiveExclusive(matches + [x])
  {
    var ms := matches + [x];
    forall i, j | 0 <= i < j < |ms| && Active(ms[i]) && Active(ms[j])
      ensures !(ms[i].stadiumId == ms[j].stadiumId && ms[i].date == ms[j].date && ms[i].time == ms[j].time)
    {
      if j == |matches| {
        assert ms[i] == matches[i];
      }
    }
  }

  /** Sequential creates never leave two active matches on one stadium,
      date and time. */
  lemma PostKeepsActiveExclusive(rule: SlotRule, matches: seq<FriendlyMatch>, bookings: seq<Booking>,
                                 stadiums: seq<Stadium>, slots: seq<TimeSlot>, body: Option<Json>, freshId: string)
    requires ActiveExclusive(matches)
    requires PostMatchResult(rule, matches, bookings, stadiums, slots, body, freshId).Ok?
    ensures ActiveExclusive(matches + [PostMatchResult(rule, matches, bookings, stadiums, slots, body, freshId).body.doc])
  {
    ActiveExclusiveAppend(matches, PostMatchResult(rule, matches, bookings, stadiums, slots, body, freshId).body.doc);
  }

  /** A created match takes the defaults for every optional field the
      request leaves out, and the sent values for the others. */
  lemma CreatedDefaults(rule: SlotRule, matches: seq<FriendlyMatch>, bookings: seq<Booking>,
                        stadiums: seq<Stadium>, slots: seq<TimeSlot>, m: map<string, Json>, freshId: string)
    requires PostMatchResult(rule, matches, bookings, stadiums, slots, Some(JObj(m)), freshId).Ok?
    ensures var x := PostMatchResult(rule, matches, bookings, stadiums, slots, Some(JObj(m)), freshId).body.doc;
      HasNumber(m, "maxPlayers") && x.maxPlayers == Some(m["maxPlayers"].n) && 2 <= m["maxPlayers"].n <= 50
      && ("team2" !in m ==> x.team2 == "Open")
      && ("currentPlayers" !in m ==> x.currentPlayers == Some(1))
      && (HasNumber(m, "currentPlayers") ==> x.currentPlayers == Some(m["currentPlayers"].n))
      && ("description" !in m ==> x.description == "")
      && ("skillLevel" !in m ==> x.skillLevel == Some("any"))
      && ("isPublic" !in m ==> x.isPublic == Some(true))
      && ("isPublic" in m ==> m["isPublic"].JBool? && x.isPublic == Some(m["isPublic"].b))
  {
    var v := ValidateData(Parse(FriendlyMatchShape(), JObj(m)));
    CreatedFromRequest(rule, matches, bookings, stadiums, slots, m, freshId);
    FriendlyMatchShapeAccepts(m);
    MatchData(m);
    SanitizedDefaults(m, v.data, freshId);
  }

  /** The created match is the candidate built from the sanitised data. */
  lemma CreatedFromRequest(rule: SlotRule, matches: seq<FriendlyMatch>, bookings: seq<Booking>,
                           stadiums: seq<Stadium>, slots: seq<TimeSlot>, m: map<string, Json>, freshId: string)
    requires PostMatchResult(rule, matches, bookings, stadiums, slots, Some(JObj(m)), freshId).Ok?
    ensures ValidateData(Parse(FriendlyMatchShape(), JObj(m))).Valid?
    ensures PostMatchResult(rule, matches, bookings, stadiums, slots, Some(JObj(m)), freshId).body.doc
      == NewMatch(Sanitized(ValidateData(Parse(FriendlyMatchShape(), JObj(m))).data), freshId)
  {
  }

  lemma SanitizedDefaults(m: map<string, Json>, d: map<string, Json>, freshId: string)
    requires KeptAs(d, m, "maxPlayers") && KeptAs(d, m, "team2") && KeptAs(d, m, "currentPlayers")
    requires KeptAs(d, m, "description") && KeptAs(d, m, "skillLevel") && KeptAs(d, m, "isPublic")
    requires HasNumber(m, "maxPlayers")
    requires "currentPlayers" in m ==> m["currentPlayers"].JNum? && m["currentPlayers"].n >= 1
    requires "isPublic" in m ==> m["isPublic"].JBool?
    ensures var x := NewMatch(Sanitized(d), freshId);
      x.maxPlayers == Some(m["maxPlayers"].n)
      && ("team2" !in m ==> x.team2 == "Open")
      && ("currentPlayers" !in m ==> x.currentPlayers == Some(1))
      && (HasNumber(m, "currentPlayers") ==> x.currentPlayers == Some(m["currentPlayers"].n))
      && ("description" !in m ==> x.description == "")
      && ("skillLevel" !in m ==> x.skillLevel == Some("any"))
      && ("isPublic" !in m ==> x.isPublic == Some(true))
      && ("isPublic" in m ==> x.isPublic == Some(m["isPublic"].b))
  {
    SanitizedKept(d, m, "maxPlayers");
    SanitizedKept(d, m, "team2");
    SanitizedKept(d, m, "currentPlayers");
    SanitizedKept(d, m, "description");
    SanitizedKept(d, m, "skillLevel");
    SanitizedKept(d, m, "isPublic");
  }

  /** The roster and the count diverge from creation on: a request with
      `currentPlayers` other than 1 stores that count beside a single
      player. */
  lemma CreatedCountCanDiverge(rule: SlotRule, matches: seq<FriendlyMatch>, bookings: seq<Booking>,
                               stadiums: seq<Stadium>, slots: seq<TimeSlot>, m: map<string, Json>, freshId: string)
    requires PostMatchResult(rule, matches, bookings, stadiums, slots, Some(JObj(m)), freshId).Ok?
    requires HasNumber(m, "currentPlayers") && m["currentPlayers"].n != 1
    ensures var x := PostMatchResult(rule, matches, bookings, stadiums, slots, Some(JObj(m)), freshId).body.doc;
      x.players.Some? && x.currentPlayers.Some? && x.currentPlayers.value != |x.players.value|
  {
    CreatedDefaults(rule, matches, bookings, stadiums, slots, m, freshId);
  }

  /** Every field the listing would default is set on a created match, so
      its row shows the stored values. */
  predicate Complete(x: FriendlyMatch) {
    x.maxPlayers.Some? && x.maxPlayers.value != 0 && x.currentPlayers.Some? && x.currentPlayers.value != 0
    && x.skillLevel.Some? && x.skillLevel.value != "" && x.isPublic.Some?
  }

  lemma CreatedMatchComplete(rule: SlotRule, matches: seq<FriendlyMatch>, bookings: seq<Booking>,
                             stadiums: seq<Stadium>, slots: seq<TimeSlot>, m: map<string, Json>, freshId: string)
    requires PostMatchResult(rule, matches, bookings, stadiums, slots, Some(JObj(m)), freshId).Ok?
    ensures Complete(PostMatchResult(rule, matches, bookings, stadiums, slots, Some(JObj(m)), freshId).body.doc)
  {
    CreatedDefaults(rule, matches, bookings, stadiums, slots, m, freshId);
  }

  lemma CompleteShownAsStored(x: FriendlyMatch, stadiums: seq<Stadium>, users: seq<User>)
    requires Complete(x)
    ensures var row := EnrichMatch(x, stadiums, users);
      row.maxPlayers == x.maxPlayers.value && row.currentPlayers == x.currentPlayers.value
      && row.skillLevel == x.skillLevel.value && row.isPublic == x.isPublic.value
  {
  }

  /** As written, the booking check can only fire for a booking whose
      `time_slot_id` is itself an HH:MM text; with slot document ids it
      never does, though a booking holds the stadium at that time. */
  lemma SlotIdRuleMissesBooking()
    ensures var bookings := [Booking("b1", "u1", "s1", "2025-06-01", "slot7")];
      var slots := [TimeSlot("slot7", "18:00", Some(60), Some(true), None, None)];
      !BookedAt(SlotIdIsTime, bookings, slots, "s1", "2025-06-01", "18:00")
      && BookedAt(SlotTimeIsTime, bookings, slots, "s1", "2025-06-01", "18:00")
  {
    var bookings := [Booking("b1", "u1", "s1", "2025-06-01", "slot7")];
    var slots := [TimeSlot("slot7", "18:00", Some(60), Some(true), None, None)];
    assert "slot7" != "18:00" by {
      assert "slot7"[0] != "18:00"[0];
    }
    assert SlotMeans(SlotTimeIsTime, slots, bookings[0].timeSlotId, "18:00");
  }

  /** With the corrected rule a match is never created over a booking
      whose slot starts at the match's time. */
  lemma SlotTimeRuleRespectsBookings(matches: seq<FriendlyMatch>, bookings: seq<Booking>, stadiums: seq<Stadium>,
                                     slots: seq<TimeSlot>, body: Option<Json>, freshId: string, b: Booking)
    requires PostMatchResult(SlotTimeIsTime, matches, bookings, stadiums, slots, body, freshId).Ok?
    requires b in bookings
    ensures var x := PostMatchResult(SlotTimeIsTime, matches, bookings, stadiums, slots, body, freshId).body.doc;
      b.stadiumId == x.stadiumId && b.date == x.date && FindSlot(slots, b.timeSlotId).Some? ==>
        FindSlot(slots, b.timeSlotId).value.time != x.time
  {
    var x := PostMatchResult(SlotTimeIsTime, matches, bookings, stadiums, slots, body, freshId).body.doc;
    assert !BookedAt(SlotTimeIsTime, bookings, slots, x.stadiumId, x.date, x.time);
    NotBookedAt(SlotTimeIsTime, bookings, slots, x.stadiumId, x.date, x.time, b);
  }

  /** No booking of the stadium and date means the slot of each of them. */
  lemma NotBookedAt(rule: SlotRule, bookings: seq<Booking>, slots: seq<TimeSlot>,
                    stadiumId: string, date: string, time: string, b: Booking)
    requires !BookedAt(rule, bookings, slots, stadiumId, date, time) && b in bookings
    ensures b.stadiumId == stadiumId && b.date == date ==> !SlotMeans(rule, slots, b.timeSlotId, time)
  {
    var i :| 0 <= i < |bookings| && bookings[i] == b;
  }

  /** POST /api/friendly-matches against the database. */
  method PostMatch(db: Db, rule: SlotRule, body: Option<Json>, freshId: string) returns (r: Response<Created>)
    requires db.Valid() && freshId !in MatchIds(db.matches)
    modifies db
    ensures db.Valid()
    ensures r == PostMatchResult(rule, old(db.matches), old(db.bookings), old(db.stadiums), old(db.timeSlots), body, freshId)
    ensures r.Ok? ==> db.matches == old(db.matches) + [r.body.doc]
    ensures r.Fail? ==> db.matches == old(db.matches)
    ensures ActiveExclusive(old(db.matches)) ==> ActiveExclusive(db.matches)
    ensures db.bookings == old(db.bookings) && db.stadiums == old(db.stadiums)
    ensures db.timeSlots == old(db.timeSlots) && db.users == old(db.users)
  {
    if body.None? {
      return Fail(500, "Failed to create friendly match", []);
    }
    var validation := ValidateData(Parse(FriendlyMatchShape(), body.value));
    if validation.Invalid? {
      return Fail(400, "Validation failed", validation.errors);
    }
    var data := SanitizeObject(validation.data);
    r := CreateMatch(db, rule, NewMatch(data, freshId));
  }

  /** The checks and the insert that follow validation. */
  method CreateMatch(db: Db, rule: SlotRule, candidate: FriendlyMatch) returns (r: Response<Created>)
    requires db.Valid() && candidate.id !in MatchIds(db.matches) && candidate.status == "pending"
    modifies db
    ensures db.Valid()
    ensures r == CheckCandidate(rule, candidate, old(db.matches), old(db.bookings), old(db.stadiums), old(db.timeSlots))
    ensures r.Ok? ==> db.matches == old(db.matches) + [candidate]
    ensures r.Fail? ==> db.matches == old(db.matches)
    ensures ActiveExclusive(old(db.matches)) ==> ActiveExclusive(db.matches)
    ensures db.bookings == old(db.bookings) && db.stadiums == old(db.stadiums)
    ensures db.timeSlots == old(db.timeSlots) && db.users == old(db.users)
  {
    if !DocRefOk(candidate.stadiumId) {
      return Fail(500, "Failed to create friendly match", []);
    }
    var stadium := GetStadium(db.stadiums, candidate.stadiumId);
    if stadium.None? {
      return Fail(404, "Stadium not found", []);
    }
    if OverCapacity(candidate.maxPlayers, stadium.value) {
      return Fail(400, CapacityMessage(candidate.maxPlayers.value, stadium.value.capacity.value), []);
    }
    if BookedAt(rule, db.bookings, db.timeSlots, candidate.stadiumId, candidate.date, candidate.time) {
      return Fail(400, BookedMessage(stadium.value.name, candidate.time, candidate.date), []);
    }
    if MatchAt(db.matches, candidate.stadiumId, candidate.date, candidate.time) {
      return Fail(400, MatchTakenMessage(stadium.value.name, candidate.time, candidate.date), []);
    }
    r := Ok(Created(candidate, StadiumInfo(candidate.stadiumId, stadium.value.name, stadium.value.capacity)));
    if ActiveExclusive(db.matches) {
      ActiveExclusiveAppend(db.matches, candidate);
    }
    db.AddMatch(candidate);
  }

  // ---------------------------------------------------------------------
  // PUT

  /** The JSON body of a PUT: `matchId`, `guestId`, `status`, `action`
      (None: absent). */
  datatype PutRequest = PutRequest(matchId: Option<string>, guestId: Option<string>,
                                   status: Option<string>, action: Option<string>)

  /** The `updateData` object: each field is written only when Some. */
  datatype Update = Update(players: Option<seq<string>>, currentPlayers: Option<int>, guestId: Option<string>,
                           hostId: Option<string>, status: Option<string>)

  /** `updateDoc`: the fields of the update overwrite the stored ones. */
  function Apply(m: FriendlyMatch, u: Update): (r: FriendlyMatch)
    ensures r.id == m.id && r.stadiumId == m.stadiumId && r.date == m.date && r.time == m.time
    ensures r.maxPlayers == m.maxPlayers
  {
    m.(players := if u.players.Some? then u.players else m.players,
       currentPlayers := if u.currentPlayers.Some? then u.currentPlayers else m.currentPlayers,
       guestId := if u.guestId.Some? then u.guestId else m.guestId,
       hostId := if u.hostId.Some? then u.hostId.value else m.hostId,
       status := if u.status.Some? then u.status.value else m.status)
  }

  /** `currentPlayers >= maxPlayers`, false when either is absent. */
  predicate Full(m: FriendlyMatch) {
    m.currentPlayers.Some? && m.maxPlayers.Some? && m.currentPlayers.value >= m.maxPlayers.value
  }

  /** `players && players.includes(guestId)`. */
  predicate InPlayers(m: FriendlyMatch, guestId: Option<string>) {
    m.players.Some? && guestId.Some? && guestId.value in m.players.value
  }

  function PlayersOr(m: FriendlyMatch): seq<string> {
    if m.players.Some? then m.players.value else []
  }

  /** `players.filter(id => id !== g)`. */
  function Without(ps: seq<string>, g: string): (r: seq<string>)
    ensures |r| <= |ps|
    ensures forall p :: p in r <==> p in ps && p != g
  {
    if ps == [] then []
    else if ps[0] == g then Without(ps[1..], g)
    else [ps[0]] + Without(ps[1..], g)
  }

  function Max(a: int, b: int): int { if a >= b then a else b }

  /** The status a PUT writes: any non-empty text sent. */
  function StatusWritten(q: PutRequest): Option<string> {
    if Given(q.status) then q.status else None
  }

  /** What a PUT does to the match it found: a rejection, or the update
      it writes. */
  function PlanUpdate(m: FriendlyMatch, q: PutRequest): Response<Update> {
    if q.action == Some("join") then
      if Full(m) then Fail(400, "Match is full. Cannot join.", [])
      else if InPlayers(m, q.guestId) then Fail(400, "You are already in this match", [])
      else if q.guestId.None? then Fail(500, "Failed to update friendly match", [])
      else Ok(Update(Some(PlayersOr(m) + [q.guestId.value]), Some(NumOr(m.currentPlayers, 1) + 1),
                     q.guestId, None, StatusWritten(q)))
    else if q.action == Some("leave") then
      if InPlayers(m, q.guestId) then
        var rest := Without(m.players.value, q.guestId.value);
        Ok(Update(Some(rest), Some(Max(1, NumOr(m.currentPlayers, 1) - 1)), None,
                  if m.hostId == q.guestId.value && |rest| > 0 then Some(rest[0]) else None,
                  StatusWritten(q)))
      else Ok(Update(None, None, None, None, StatusWritten(q)))
    else if Given(q.guestId) then Ok(Update(None, None, q.guestId, None, StatusWritten(q)))
    else Ok(Update(None, None, None, None, StatusWritten(q)))
  }

  /** A reply and the collection after the request. */
  datatype Outcome = Outcome(reply: Response<bool>, matches: seq<FriendlyMatch>)

  /** PUT /api/friendly-matches (None: the body is not JSON). */
  function Put(ms: seq<FriendlyMatch>, req: Option<PutRequest>): (r: Outcome)
    ensures r.reply.Fail? ==> r.matches == ms
    ensures MatchIds(r.matches) == MatchIds(ms)
    ensures (r.reply.Fail? && r.reply.status == 404) <==>
      req.Some? && req.value.matchId.Some? && DocRefOk(req.value.matchId.value)
      && forall i :: 0 <= i < |ms| ==> DocKey(req.value.matchId.value) != Some(ms[i].id)
    ensures r.reply.Fail? && r.reply.status == 404 ==> r.reply.error == "Match not found"
    ensures forall i :: 0 <= i < |ms| && (req.None? || req.value.matchId.None?
                                          || DocKey(req.value.matchId.value) != Some(ms[i].id)) ==>
      r.matches[i] == ms[i]
    ensures req.None? || req.value.matchId.None? || !DocRefOk(req.value.matchId.value) ==>
      r.reply == Fail(500, "Failed to update friendly match", [])
    ensures req.Some? && req.value.matchId.Some? && DocRefOk(req.value.matchId.value)
            && MatchIndex(ms, req.value.matchId.value).Some? ==>
      var k := MatchIndex(ms, req.value.matchId.value).value;
      var plan := PlanUpdate(ms[k], req.value);
      (r.reply.Ok? <==> plan.Ok?)
      && (plan.Ok? ==> r.reply == Ok(true) && r.matches == ms[k := Apply(ms[k], plan.body)])
      && (plan.Fail? ==> r.reply == Fail(plan.status, plan.error, []))
  {
    if req.None? || req.value.matchId.None? || !DocRefOk(req.value.matchId.value) then
      Outcome(Fail(500, "Failed to update friendly match", []), ms)
    else
      var k := MatchIndex(ms, req.value.matchId.value);
      if k.None? then Outcome(Fail(404, "Match not found", []), ms)
      else
        var plan := PlanUpdate(ms[k.value], req.value);
        if plan.Fail? then Outcome(Fail(plan.status, plan.error, []), ms)
        else
          var r := ms[k.value := Apply(ms[k.value], plan.body)];
          assert MatchIds(r) == MatchIds(ms);
          Outcome(Ok(true), r)
  }

  /** A join succeeds exactly when the match is not full, the guest is not
      yet a player and a guest is named; "full" wins over "already in".
      It appends the guest, counts one more player (from 1 when the count
      is missing) and records the guest, whatever the match's status. */
  lemma JoinOutcome(m: FriendlyMatch, q: PutRequest)
    requires q.action == Some("join")
    ensures PlanUpdate(m, q).Ok? <==> !Full(m) && !InPlayers(m, q.guestId) && q.guestId.Some?
    ensures Full(m) ==> PlanUpdate(m, q) == Fail(400, "Match is full. Cannot join.", [])
    ensures !Full(m) && InPlayers(m, q.guestId) ==> PlanUpdate(m, q) == Fail(400, "You are already in this match", [])
    ensures PlanUpdate(m, q).Ok? ==>
      var n := Apply(m, PlanUpdate(m, q).body);
      n.players == Some(PlayersOr(m) + [q.guestId.value])
      && n.currentPlayers == Some(NumOr(m.currentPlayers, 1) + 1)
      && n.guestId == q.guestId && n.hostId == m.hostId
      && n.status == (if Given(q.status) then q.status.value else m.status)
      && n.team1 == m.team1 && n.team2 == m.team2 && n.description == m.description
  {
  }

  /** A join through PUT on a stored match: accepted exactly when the
      match has room and the named guest is new, and the stored roster
      then ends with the guest. */
  lemma PutJoin(ms: seq<FriendlyMatch>, q: PutRequest)
    requires q.action == Some("join") && q.matchId.Some? && DocRefOk(q.matchId.value)
    requires MatchIndex(ms, q.matchId.value).Some?
    ensures var k := MatchIndex(ms, q.matchId.value).value;
      var r := Put(ms, Some(q));
      (r.reply.Ok? <==> !Full(ms[k]) && !InPlayers(ms[k], q.guestId) && q.guestId.Some?)
      && (r.reply.Ok? ==> r.matches[k].players == Some(PlayersOr(ms[k]) + [q.guestId.value]))
  {
    JoinOutcome(ms[MatchIndex(ms, q.matchId.value).value], q);
  }

  /** Whether a join, leave or guest update succeeds does not depend on
      the stored status: a `cancelled` or `completed` match can be joined. */
  lemma PlanIgnoresStatus(m: FriendlyMatch, q: PutRequest, status: string)
    ensures PlanUpdate(m.(status := status), q).Ok? == PlanUpdate(m, q).Ok?
  {
  }

  /** A leave by someone who is not a player changes nothing but the
      status (when one is sent). */
  lemma LeaveByNonMember(m: FriendlyMatch, q: PutRequest)
    requires q.action == Some("leave") && !InPlayers(m, q.guestId)
    ensures PlanUpdate(m, q).Ok?
    ensures Apply(m, PlanUpdate(m, q).body) == m.(status := if Given(q.status) then q.status.value else m.status)
  {
  }

  /** A leave by a player removes every occurrence of them, keeps the
      other players in order, counts one fewer (never below 1) and, when
      the host leaves and players remain, hands the match to the first
      remaining player. */
  lemma LeaveByMember(m: FriendlyMatch, q: PutRequest)
    requires q.action == Some("leave") && InPlayers(m, q.guestId)
    ensures PlanUpdate(m, q).Ok?
    ensures var n := Apply(m, PlanUpdate(m, q).body);
      var g := q.guestId.value;
      n.players == Some(Without(m.players.value, g)) && g !in n.players.value
      && (forall p :: p in m.players.value && p != g ==> p in n.players.value)
      && n.currentPlayers == Some(Max(1, NumOr(m.currentPlayers, 1) - 1)) && n.currentPlayers.value >= 1
      && (m.hostId == g && |n.players.value| > 0 ==> n.hostId == n.players.value[0])
      && (m.hostId != g || |n.players.value| == 0 ==> n.hostId == m.hostId)
      && n.guestId == m.guestId
  {
  }

  /** Any non-empty status sent is stored, whatever the stored one was:
      no status is final. */
  lemma StatusOverwritten(m: FriendlyMatch, q: PutRequest)
    requires PlanUpdate(m, q).Ok? && Given(q.status)
    ensures Apply(m, PlanUpdate(m, q).body).status == q.status.value
  {
  }

  // Roster bookkeeping

  predicate NoDuplicates(ps: seq<string>) {
    forall i, j :: 0 <= i < j < |ps| ==> ps[i] != ps[j]
  }

  /** The roster a match should keep: distinct players, at least one, and
      `currentPlayers` equal to their number. */
  predicate RosterConsistent(m: FriendlyMatch) {
    m.players.Some? && |m.players.value| >= 1 && NoDuplicates(m.players.value)
    && m.currentPlayers == Some(|m.players.value|)
  }

  lemma {:induction false} WithoutPresent(ps: seq<string>, g: string)
    requires NoDuplicates(ps) && g in ps
    ensures |Without(ps, g)| == |ps| - 1
  {
    if ps[0] != g {
      assert NoDuplicates(ps[1..]) by {
        forall i, j | 0 <= i < j < |ps[1..]| ensures ps[1..][i] != ps[1..][j] {
          assert ps[1..][i] == ps[i + 1] && ps[1..][j] == ps[j + 1];
        }
      }
      WithoutPresent(ps[1..], g);
    } else {
      WithoutAbsent(ps[1..], g);
    }
  }

  lemma {:induction false} WithoutAbsent(ps: seq<string>, g: string)
    requires g !in ps
    ensures Without(ps, g) == ps
  {
    if ps != [] {
      WithoutAbsent(ps[1..], g);
      assert ps == [ps[0]] + ps[1..];
    }
  }

  lemma {:induction false} WithoutKeepsNoDuplicates(ps: seq<string>, g: string)
    requires NoDuplicates(ps)
    ensures NoDuplicates(Without(ps, g))
  {
    if ps != [] {
      assert NoDuplicates(ps[1..]) by {
        forall i, j | 0 <= i < j < |ps[1..]| ensures ps[1..][i] != ps[1..][j] {
          assert ps[1..][i] == ps[i + 1] && ps[1..][j] == ps[j + 1];
        }
      }
      WithoutKeepsNoDuplicates(ps[1..], g);
      if ps[0] != g {
        var rest := Without(ps[1..], g);
        assert ps[0] !in ps[1..];
        assert ps[0] !in rest;
        var r := [ps[0]] + rest;
        forall i, j | 0 <= i < j < |r| ensures r[i] != r[j] {
          if i == 0 {
            assert r[j] in rest;
          } else {
            assert r[i] == rest[i - 1] && r[j] == rest[j - 1];
          }
        }
      }
    }
  }

  /** A join keeps a consistent roster consistent. */
  lemma JoinKeepsRoster(m: FriendlyMatch, q: PutRequest)
    requires RosterConsistent(m) && q.action == Some("join") && PlanUpdate(m, q).Ok?
    ensures RosterConsistent(Apply(m, PlanUpdate(m, q).body))
  {
    var ps := m.players.value + [q.guestId.value];
    forall i, j | 0 <= i < j < |ps| ensures ps[i] != ps[j] {
      if j == |ps| - 1 {
        assert ps[i] == m.players.value[i];
      }
    }
  }

  /** A leave keeps a consistent roster consistent while two or more
      players are in it. */
  lemma LeaveKeepsRoster(m: FriendlyMatch, q: PutRequest)
    requires RosterConsistent(m) && |m.players.value| >= 2 && q.action == Some("leave")
    ensures RosterConsistent(Apply(m, PlanUpdate(m, q).body))
  {
    if InPlayers(m, q.guestId) {
      WithoutPresent(m.players.value, q.guestId.value);
      WithoutKeepsNoDuplicates(m.players.value, q.guestId.value);
    }
  }

  /** The last player leaving empties the roster but leaves the count at
      1: count and roster disagree. */
  lemma LastLeaveDiverges(m: FriendlyMatch, q: PutRequest)
    requires m.players == Some([m.hostId]) && m.currentPlayers == Some(1)
    requires q.action == Some("leave") && q.guestId == Some(m.hostId)
    ensures var n := Apply(m, PlanUpdate(m, q).body);
      n.players == Some([]) && n.currentPlayers == Some(1) && n.hostId == m.hostId
  {
    assert m.hostId in m.players.value;
    assert Without([m.hostId], m.hostId) == [];
  }

  /** A PUT can bring a cancelled match back to `pending`, and so leave two
      active matches at one stadium, date and time. */
  lemma ReactivationBreaksExclusivity()
    ensures var a := FriendlyMatch("a", "h1", "s1", "2025-06-01", "18:00", "Lions", "Open", "football",
                                   Some(10), Some(1), Some(["h1"]), None, "", Some("any"), Some(true), "cancelled");
      var b := a.(id := "b", hostId := "h2", players := Some(["h2"]), status := "pending");
      ActiveExclusive([a, b])
      && !ActiveExclusive(Put([a, b], Some(PutRequest(Some("a"), None, Some("pending"), None))).matches)
  {
    var a := FriendlyMatch("a", "h1", "s1", "2025-06-01", "18:00", "Lions", "Open", "football",
                           Some(10), Some(1), Some(["h1"]), None, "", Some("any"), Some(true), "cancelled");
    var b := a.(id := "b", hostId := "h2", players := Some(["h2"]), status := "pending");
    var q := PutRequest(Some("a"), None, Some("pending"), None);
    assert MatchIndex([a, b], "a") == Some(0);
    assert "pending" != "join" && "pending" != "leave" by {
      assert "pending"[0] != "join"[0] && "pending"[0] != "leave"[0];
    }
    var after := Put([a, b], Some(q)).matches;
    assert after[0].status == "pending";
    assert after[1] == b;
  }

  /** PUT /api/friendly-matches against the database: the update is built
      field by field, then written in one `updateDoc`. */
  method PutMatch(db: Db, req: Option<PutRequest>) returns (reply: Response<bool>)
    requires db.Valid()
    modifies db
    ensures db.Valid()
    ensures reply == Put(old(db.matches), req).reply && db.matches == Put(old(db.matches), req).matches
    ensures db.bookings == old(db.bookings) && db.stadiums == old(db.stadiums)
    ensures db.timeSlots == old(db.timeSlots) && db.users == old(db.users)
  {
    if req.None? || req.value.matchId.None? || !DocRefOk(req.value.matchId.value) {
      return Fail(500, "Failed to update friendly match", []);
    }
    var q := req.value;
    var k := MatchIndex(db.matches, q.matchId.value);
    if k.None? {
      return Fail(404, "Match not found", []);
    }
    var m := db.matches[k.value];
    var update := Update(None, None, None, None, None);
    if q.action == Some("join") {
      if Full(m) {
        return Fail(400, "Match is full. Cannot join.", []);
      }
      if InPlayers(m, q.guestId) {
        return Fail(400, "You are already in this match", []);
      }
      if q.guestId.None? {
        // the stored array would hold `undefined`, which updateDoc refuses
        return Fail(500, "Failed to update friendly match", []);
      }
      update := update.(players := Some(PlayersOr(m) + [q.guestId.value]));
      update := update.(currentPlayers := Some(NumOr(m.currentPlayers, 1) + 1));
      update := update.(guestId := q.guestId);
    } else if q.action == Some("leave") {
      if InPlayers(m, q.guestId) {
        var rest := Without(m.players.value, q.guestId.value);
        update := update.(players := Some(rest));
        update := update.(currentPlayers := Some(Max(1, NumOr(m.currentPlayers, 1) - 1)));
        if m.hostId == q.guestId.value && |rest| > 0 {
          update := update.(hostId := Some(rest[0]));
        }
      }
    } else if Given(q.guestId) {
      update := update.(guestId := q.guestId);
    }
    if Given(q.status) {
      update := update.(status := q.status);
    }
    assert PlanUpdate(m, q) == Ok(update);
    db.UpdateMatch(k.value, Apply(m, update));
    reply := Ok(true);
  }

  // ---------------------------------------------------------------------
  // DELETE

  /** The collection without the document the reference names (unchanged
      when it names a document of a sub-collection). */
  function WithoutMatch(ms: seq<FriendlyMatch>, ref: string): (r: seq<FriendlyMatch>)
    ensures forall x :: x in r <==> x in ms && DocKey(ref) != Some(x.id)
  {
    if ms == [] then []
    else if DocKey(ref) == Some(ms[0].id) then WithoutMatch(ms[1..], ref)
    else [ms[0]] + WithoutMatch(ms[1..], ref)
  }

  /** Deleting keeps document ids distinct. */
  lemma {:induction false} WithoutMatchKeepsDistinct(ms: seq<FriendlyMatch>, ref: string)
    requires Distinct(MatchIds(ms))
    ensures Distinct(MatchIds(WithoutMatch(ms, ref)))
  {
    if ms != [] {
      DistinctTail(ms);
      WithoutMatchKeepsDistinct(ms[1..], ref);
      if DocKey(ref) != Some(ms[0].id) {
        forall y | y in WithoutMatch(ms[1..], ref) ensures y.id != ms[0].id {
          var k :| 0 <= k < |ms[1..]| && ms[1..][k] == y;
          assert MatchIds(ms)[0] != MatchIds(ms)[k + 1];
        }
        DistinctCons(ms[0], WithoutMatch(ms[1..], ref));
      }
    }
  }

  lemma DistinctTail(ms: seq<FriendlyMatch>)
    requires ms != [] && Distinct(MatchIds(ms))
    ensures Distinct(MatchIds(ms[1..]))
  {
    forall i, j | 0 <= i < j < |ms[1..]| ensures MatchIds(ms[1..])[i] != MatchIds(ms[1..])[j] {
      assert MatchIds(ms[1..])[i] == MatchIds(ms)[i + 1] && MatchIds(ms[1..])[j] == MatchIds(ms)[j + 1];
    }
  }

  lemma DistinctCons(x: FriendlyMatch, rest: seq<FriendlyMatch>)
    requires Distinct(MatchIds(rest)) && forall y :: y in rest ==> y.id != x.id
    ensures Distinct(MatchIds([x] + rest))
  {
    var r := [x] + rest;
    forall i, j | 0 <= i < j < |r| ensures MatchIds(r)[i] != MatchIds(r)[j] {
      assert r[j] == rest[j - 1];
      if i > 0 {
        assert MatchIds(rest)[i - 1] != MatchIds(rest)[j - 1];
      }
    }
  }

  /** DELETE /api/friendly-matches?matchId=… (None: no `matchId`). A
      missing document is not an error. */
  function Delete(ms: seq<FriendlyMatch>, matchId: Option<string>): (r: Outcome)
    ensures !Given(matchId) <==> r.reply == Fail(400, "Match ID is required", [])
    ensures r.reply.Fail? ==> r.matches == ms
    ensures r.reply.Ok? <==> Given(matchId) && DocRefOk(matchId.value)
    ensures r.reply.Ok? ==> forall x :: x in r.matches <==> x in ms && DocKey(matchId.value) != Some(x.id)
  {
    if !Given(matchId) then Outcome(Fail(400, "Match ID is required", []), ms)
    else if !DocRefOk(matchId.value) then Outcome(Fail(500, "Failed to delete friendly match", []), ms)
    else Outcome(Ok(true), WithoutMatch(ms, matchId.value))
  }

  /** Deleting the same match twice is the same as deleting it once. */
  lemma {:induction false} DeleteIdempotent(ms: seq<FriendlyMatch>, matchId: Option<string>)
    ensures Delete(Delete(ms, matchId).matches, matchId) == Delete(ms, matchId)
  {
    if Given(matchId) && DocRefOk(matchId.value) {
      WithoutMatchTwice(ms, matchId.value);
    }
  }

  lemma {:induction false} WithoutMatchTwice(ms: seq<FriendlyMatch>, ref: string)
    ensures WithoutMatch(WithoutMatch(ms, ref), ref) == WithoutMatch(ms, ref)
  {
    if ms != [] {
      WithoutMatchTwice(ms[1..], ref);
    }
  }

  /** A '/' at either end of the id deletes the same document; an id of
      three segments names a document of a sub-collection, so nothing is
      deleted, and the reply is still a success. */
  lemma DeleteByPath(ms: seq<FriendlyMatch>, id: string, b: string, c: string)
    requires id != "" && '/' !in id && b != "" && '/' !in b && c != "" && '/' !in c
    ensures Delete(ms, Some(id + "/")) == Delete(ms, Some(id))
    ensures Delete(ms, Some(id + "/" + b + "/" + c)) == Outcome(Ok(true), ms)
  {
    EdgeSlashesDropped(id);
    WithoutMatchSameKey(ms, id + "/", id);
    SubCollectionRef(id, b, c);
    WithoutMatchNoKey(ms, id + "/" + b + "/" + c);
  }

  lemma {:induction false} WithoutMatchSameKey(ms: seq<FriendlyMatch>, ref: string, ref': string)
    requires DocKey(ref) == DocKey(ref')
    ensures WithoutMatch(ms, ref) == WithoutMatch(ms, ref')
  {
    if ms != [] {
      WithoutMatchSameKey(ms[1..], ref, ref');
    }
  }

  lemma {:induction false} WithoutMatchNoKey(ms: seq<FriendlyMatch>, ref: string)
    requires DocKey(ref).None?
    ensures WithoutMatch(ms, ref) == ms
  {
    if ms != [] {
      WithoutMatchNoKey(ms[1..], ref);
      assert ms == [ms[0]] + ms[1..];
    }
  }

  /** DELETE /api/friendly-matches against the database. */
  method DeleteMatch(db: Db, matchId: Option<string>) returns (reply: Response<bool>)
    requires db.Valid()
    modifies db
    ensures db.Valid()
    ensures reply == Delete(old(db.matches), matchId).reply && db.matches == Delete(old(db.matches), matchId).matches
    ensures db.bookings == old(db.bookings) && db.stadiums == old(db.stadiums)
    ensures db.timeSlots == old(db.timeSlots) && db.users == old(db.users)
  {
    if matchId.None? || matchId.value == "" {
      return Fail(400, "Match ID is required", []);
    }
    if !DocRefOk(matchId.value) {
      return Fail(500, "Failed to delete friendly match", []);
    }
    WithoutMatchKeepsDistinct(db.matches, matchId.value);
    db.matches := WithoutMatch(db.matches, matchId.value);
    reply := Ok(true);
  }
}
