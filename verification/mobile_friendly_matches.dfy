/**
 * The mobile friendly-matches screen: the availability pre-check it runs
 * against the bookings and friendly-matches endpoints, the checks and the
 * request body of "create match", the max-players text input, and the
 * predicate that shows the "Join Match" button. Network replies are
 * parameters.
 */
module MobileFriendlyMatches {
  import opened Common
  import opened Validation
  import opened Store
  import Bookings
  import FriendlyMatches

  datatype Availability = Available | Unavailable(reason: string)

  const BookedReason := "This time slot is already booked for this stadium"
  const MatchReason := "This time slot already has a friendly match on this stadium"

  /** `bookings.some(b => b.time_slot_id === time)`. */
  predicate HasBooking(bs: seq<Booking>, time: string) {
    exists i :: 0 <= i < |bs| && bs[i].timeSlotId == time
  }

  /** Some pending or confirmed match at that stadium, date and time. */
  predicate HasMatch(ms: seq<FriendlyMatch>, stadiumId: string, date: string, time: string) {
    exists i :: 0 <= i < |ms| && ms[i].stadiumId == stadiumId && ms[i].date == date && ms[i].time == time
      && FriendlyMatches.Active(ms[i])
  }

  /** `checkStadiumAvailability`: bookings first, then matches. It fails
      open: an exception makes the slot available, and a reply that is
      not ok skips that half of the check. */
  function CheckStadiumAvailability(stadiumId: string, date: string, time: string,
                                    bookings: Reply<Booking>, matches: Reply<FriendlyMatch>): (a: Availability)
    ensures a.Unavailable? <==>
      (bookings.Listed? && HasBooking(bookings.items, time))
      || (!bookings.Raised? && matches.Listed? && HasMatch(matches.items, stadiumId, date, time))
    ensures a.Unavailable? ==>
      a.reason == (if bookings.Listed? && HasBooking(bookings.items, time) then BookedReason else MatchReason)
    ensures bookings.Raised? ==> a == Available
  {
    if bookings.Raised? then Available
    else if bookings.Listed? && HasBooking(bookings.items, time) then Unavailable(BookedReason)
    else if matches.Raised? then Available
    else if matches.Listed? && HasMatch(matches.items, stadiumId, date, time) then Unavailable(MatchReason)
    else Available
  }

  /** Fed with what the two endpoints answer, the pre-check refuses a slot
      exactly when the server's create would find a conflicting booking
      (under the same comparison of the slot id with the HH:MM time) or a
      conflicting active match. */
  lemma AvailabilityAgreesWithServer(stadiumId: string, date: string, time: string,
                                     bookings: seq<Booking>, stadiums: seq<Stadium>, slots: seq<TimeSlot>,
                                     users: seq<User>, matches: seq<FriendlyMatch>)
    requires stadiumId != "" && date != ""
    requires Bookings.GetBookings(Bookings.BookingQuery(None, Some(date), Some(stadiumId)),
                                  bookings, stadiums, slots, users).Ok?
    requires FriendlyMatches.GetMatches(None, matches, stadiums, users).Ok?
    ensures
      var rows := Bookings.GetBookings(Bookings.BookingQuery(None, Some(date), Some(stadiumId)),
                                       bookings, stadiums, slots, users).body;
      var listed := FriendlyMatches.GetMatches(None, matches, stadiums, users).body;
      CheckStadiumAvailability(stadiumId, date, time,
                               Listed(Bookings.BookingsOf(rows)), Listed(FriendlyMatches.MatchesOf(listed))).Unavailable?
      <==> FriendlyMatches.BookedAt(FriendlyMatches.SlotIdIsTime, bookings, slots, stadiumId, date, time)
           || FriendlyMatches.MatchAt(matches, stadiumId, date, time)
  {
    var q := Bookings.BookingQuery(None, Some(date), Some(stadiumId));
    var got := Bookings.BookingsOf(Bookings.GetBookings(q, bookings, stadiums, slots, users).body);
    var shown := FriendlyMatches.MatchesOf(FriendlyMatches.GetMatches(None, matches, stadiums, users).body);
    BookingHalf(stadiumId, date, time, bookings, slots, got);
    MatchHalf(stadiumId, date, time, matches, shown);
  }

  /** The bookings the query returns hold the time exactly when some
      booking of that stadium and date does. */
  lemma BookingHalf(stadiumId: string, date: string, time: string, bookings: seq<Booking>, slots: seq<TimeSlot>,
                    got: seq<Booking>)
    requires forall b :: b in got <==> b in bookings && b.date == date && b.stadiumId == stadiumId
    ensures HasBooking(got, time) <==>
      FriendlyMatches.BookedAt(FriendlyMatches.SlotIdIsTime, bookings, slots, stadiumId, date, time)
  {
    if HasBooking(got, time) {
      var i :| 0 <= i < |got| && got[i].timeSlotId == time;
      assert got[i] in got;
      var j :| 0 <= j < |bookings| && bookings[j] == got[i];
      assert FriendlyMatches.SlotMeans(FriendlyMatches.SlotIdIsTime, slots, bookings[j].timeSlotId, time);
    }
    if FriendlyMatches.BookedAt(FriendlyMatches.SlotIdIsTime, bookings, slots, stadiumId, date, time) {
      var j :| 0 <= j < |bookings| && bookings[j].stadiumId == stadiumId && bookings[j].date == date
               && FriendlyMatches.SlotMeans(FriendlyMatches.SlotIdIsTime, slots, bookings[j].timeSlotId, time);
      assert bookings[j] in bookings;
      var i :| 0 <= i < |got| && got[i] == bookings[j];
    }
  }

  /** A listing of every match holds an active one at the slot exactly
      when the store does. */
  lemma MatchHalf(stadiumId: string, date: string, time: string, matches: seq<FriendlyMatch>,
                  shown: seq<FriendlyMatch>)
    requires forall m :: m in shown <==> m in matches
    ensures HasMatch(shown, stadiumId, date, time) <==> FriendlyMatches.MatchAt(matches, stadiumId, date, time)
  {
    if HasMatch(shown, stadiumId, date, time) {
      var i :| 0 <= i < |shown| && shown[i].stadiumId == stadiumId && shown[i].date == date
               && shown[i].time == time && FriendlyMatches.Active(shown[i]);
      assert shown[i] in shown;
      var j :| 0 <= j < |matches| && matches[j] == shown[i];
    }
    if FriendlyMatches.MatchAt(matches, stadiumId, date, time) {
      var j :| 0 <= j < |matches| && matches[j].stadiumId == stadiumId && matches[j].date == date
               && matches[j].time == time && FriendlyMatches.Active(matches[j]);
      assert matches[j] in matches;
      var i :| 0 <= i < |shown| && shown[i] == matches[j];
    }
  }

  // ---------------------------------------------------------------------
  // The create form

  /** The `formData` state of the create dialog. */
  datatype Form = Form(stadiumId: string, date: string, time: string, team1: string, team2: string,
                       maxPlayers: int, description: string, skillLevel: string, isPublic: bool)

  const BlankForm := Form("", "", "", "", "", 10, "", "any", true)

  /** The required fields are filled in. */
  predicate FormComplete(f: Form) {
    f.stadiumId != "" && f.date != "" && f.time != "" && f.team1 != ""
  }

  /** `maxPlayers > capacity` for the stadium found in the local list; not
      checked when the stadium is not listed, false when it has no
      capacity. */
  predicate CapacityExceeded(f: Form, stadiums: seq<Stadium>) {
    var s := FindStadium(stadiums, f.stadiumId);
    s.Some? && FriendlyMatches.OverCapacity(Some(f.maxPlayers), s.value)
  }

  /** The body of the POST. */
  datatype MatchBody = MatchBody(hostId: string, stadiumId: string, date: string, time: string, team1: string,
                                 team2: string, sportId: string, maxPlayers: int, description: string,
                                 skillLevel: string, isPublic: bool)

  /** The body built from the form: `team2` is "Open" when left empty, the
      sport is always football and the host is the signed-in user; every
      other field is the form's. */
  function MatchPayload(f: Form, userId: string): (p: MatchBody)
    ensures p.hostId == userId && p.sportId == "football"
    ensures p.team2 == (if f.team2 == "" then "Open" else f.team2) && p.team2 != ""
    ensures p.stadiumId == f.stadiumId && p.date == f.date && p.time == f.time && p.team1 == f.team1
    ensures p.maxPlayers == f.maxPlayers && p.description == f.description
    ensures p.skillLevel == f.skillLevel && p.isPublic == f.isPublic
  {
    MatchBody(userId, f.stadiumId, f.date, f.time, f.team1, if f.team2 == "" then "Open" else f.team2,
              "football", f.maxPlayers, f.description, f.skillLevel, f.isPublic)
  }

  /** `JSON.stringify` of the body, as the server parses it. */
  function BodyJson(p: MatchBody): map<string, Json> {
    map["hostId" := JStr(p.hostId), "stadiumId" := JStr(p.stadiumId), "date" := JStr(p.date),
        "time" := JStr(p.time), "team1" := JStr(p.team1), "team2" := JStr(p.team2),
        "sportId" := JStr(p.sportId), "maxPlayers" := JNum(p.maxPlayers),
        "description" := JStr(p.description), "skillLevel" := JStr(p.skillLevel),
        "isPublic" := JBool(p.isPublic)]
  }

  /** The server's schema accepts the body exactly when the date and time
      have their formats, max players lies in 2..50, the description fits
      in 500 UTF-16 code units and the skill level is one of the four; the screen
      checks none of these itself. */
  lemma PayloadAccepted(f: Form, userId: string)
    requires userId != "" && FormComplete(f)
    ensures ValidateData(Parse(FriendlyMatchShape(), JObj(BodyJson(MatchPayload(f, userId))))).Valid? <==>
      IsDateText(f.date) && IsTimeText(f.time) && 2 <= f.maxPlayers <= 50
      && Utf16Length(f.description) <= 500 && f.skillLevel in SkillLevels
  {
    var b := MatchPayload(f, userId);
    FriendlyMatchShapeAccepts(BodyJson(b));
    BodyJsonEntries(b);
    BodyExtrasAccepted(b);
  }

  /** The body's optional fields pass exactly when the description fits
      and the skill level is one of the four. */
  lemma BodyExtrasAccepted(p: MatchBody)
    ensures MatchExtrasAccepted(BodyJson(p)) <==> Utf16Length(p.description) <= 500 && p.skillLevel in SkillLevels
  {
    BodyJsonEntries(p);
  }

  /** The entries of the body the server reads. */
  lemma BodyJsonEntries(p: MatchBody)
    ensures var m := BodyJson(p);
      m["hostId"] == JStr(p.hostId) && m["stadiumId"] == JStr(p.stadiumId) && m["team1"] == JStr(p.team1)
      && m["sportId"] == JStr(p.sportId) && m["date"] == JStr(p.date) && m["time"] == JStr(p.time)
      && m["maxPlayers"] == JNum(p.maxPlayers) && m["description"] == JStr(p.description)
      && m["skillLevel"] == JStr(p.skillLevel) && m["team2"] == JStr(p.team2)
      && m["isPublic"] == JBool(p.isPublic) && "currentPlayers" !in m
  {
  }

  /** How the POST went: an exception, a refusal with the reply's
      `error`, or success. */
  datatype PostReply = PostRaised | PostRefused(error: Option<string>) | PostCreated

  /** What submitting does: nothing without a user; an alert and no POST
      when a check fails; otherwise the POST with its body and the alert
      that follows its reply. */
  datatype Submit = Ignored | Refused(title: string, message: string)
                  | Posted(payload: MatchBody, title: string, message: string)

  function PostAlert(post: PostReply): (string, string) {
    match post
    case PostCreated => ("Success", "Friendly match created successfully!")
    case PostRefused(e) => ("Error", TextOr(e, "Failed to create the match."))
    case PostRaised => ("Error", "Failed to create the match. Please try again.")
  }

  /** `handleCreateMatchSubmit`, as a function of the form, the user, the
      listed stadiums, the availability found and the POST's reply. */
  function SubmitOutcome(f: Form, user: Option<string>, stadiums: seq<Stadium>, a: Availability,
                         post: PostReply): (r: Submit)
    ensures r == Ignored <==> user.None?
    ensures r.Posted? <==> user.Some? && FormComplete(f) && !CapacityExceeded(f, stadiums) && a == Available
    ensures user.Some? && !FormComplete(f) ==> r == Refused("Error", "Please fill in all required fields.")
    ensures user.Some? && FormComplete(f) && CapacityExceeded(f, stadiums) ==>
      r == Refused("Error", FriendlyMatches.CapacityMessage(f.maxPlayers,
                                                           FindStadium(stadiums, f.stadiumId).value.capacity.value))
    ensures user.Some? && FormComplete(f) && !CapacityExceeded(f, stadiums) && a.Unavailable? ==>
      r == Refused("Stadium Unavailable", a.reason)
    ensures r.Posted? ==> r.payload == MatchPayload(f, user.value) && (r.title, r.message) == PostAlert(post)
  {
    if user.None? then Ignored
    else if !FormComplete(f) then Refused("Error", "Please fill in all required fields.")
    else if CapacityExceeded(f, stadiums) then
      var s := FindStadium(stadiums, f.stadiumId).value;
      Refused("Error", FriendlyMatches.CapacityMessage(f.maxPlayers, s.capacity.value))
    else if a.Unavailable? then Refused("Stadium Unavailable", a.reason)
    else
      var (title, message) := PostAlert(post);
      Posted(MatchPayload(f, user.value), title, message)
  }

  // ---------------------------------------------------------------------
  // The max-players input

  /** The longest run of digits at the front. */
  function LeadingDigits(s: string): (r: string)
    ensures |r| <= |s| && r == s[..|r|]
    ensures forall i :: 0 <= i < |r| ==> IsDigit(r[i])
    ensures |r| < |s| ==> !IsDigit(s[|r|])
  {
    if s != [] && IsDigit(s[0]) then [s[0]] + LeadingDigits(s[1..]) else []
  }

  /** `parseInt(text)`: white space, an optional sign, then the digits up
      to the first other character; None stands for NaN (no digit). */
  function ParseInt(text: string): Option<int> {
    var s := TrimStart(text);
    var unsigned := if s != [] && (s[0] == '-' || s[0] == '+') then s[1..] else s;
    var digits := LeadingDigits(unsigned);
    if digits == [] then None
    else if s[0] == '-' then Some(-(DigitsValue(digits) as int))
    else Some(DigitsValue(digits))
  }

  /** The max-players field: `parseInt(text) || 10`. */
  function MaxPlayersInput(text: string): (n: int)
    ensures n != 0
  {
    var p := ParseInt(text);
    if p.Some? && p.value != 0 then p.value else 10
  }

  lemma {:induction false} LeadingDigitsOf(d: string, rest: string)
    requires forall i :: 0 <= i < |d| ==> IsDigit(d[i])
    requires rest == [] || !IsDigit(rest[0])
    ensures LeadingDigits(d + rest) == d
  {
    if d != [] {
      assert (d + rest)[1..] == d[1..] + rest;
      LeadingDigitsOf(d[1..], rest);
    } else {
      assert d + rest == rest;
    }
  }

  /** Typed digits followed by anything that is not a digit read as their
      number, and a field with no number at all, or only zeros, reads as
      10: "12abc" is 12, "abc" and "0" are 10. */
  lemma MaxPlayersOfDigits(d: string, rest: string)
    requires d != [] && forall i :: 0 <= i < |d| ==> IsDigit(d[i])
    requires rest == [] || !IsDigit(rest[0])
    ensures MaxPlayersInput(d + rest) == if DigitsValue(d) == 0 then 10 else DigitsValue(d)
  {
    ParseDigits(d, rest);
  }

  lemma ParseDigits(d: string, rest: string)
    requires d != [] && forall i :: 0 <= i < |d| ==> IsDigit(d[i])
    requires rest == [] || !IsDigit(rest[0])
    ensures ParseInt(d + rest) == Some(DigitsValue(d) as int)
  {
    var s := d + rest;
    assert s[0] == d[0];
    ParseUnsigned(s);
    LeadingDigitsOf(d, rest);
  }

  /** Text starting with a digit reads as the number of its leading digits. */
  lemma ParseUnsigned(s: string)
    requires s != [] && IsDigit(s[0])
    ensures ParseInt(s) == Some(DigitsValue(LeadingDigits(s)) as int)
  {
    NoLeadingSpace(s);
    assert s[0] != '-' && s[0] != '+';
    assert LeadingDigits(s) != [];
  }

  lemma NoLeadingSpace(s: string)
    requires s != [] && IsDigit(s[0])
    ensures TrimStart(s) == s
  {
    assert !IsJsSpace(s[0]);
  }

  lemma MaxPlayersWithoutDigits(text: string)
    requires text == [] || !(IsDigit(text[0]) || IsJsSpace(text[0]) || text[0] == '-' || text[0] == '+')
    ensures MaxPlayersInput(text) == 10
  {
    assert TrimStart(text) == text;
  }

  /** The checks `handleCreateMatchSubmit` makes before it posts, in its
      order: the user, the required fields, the capacity of the chosen
      stadium, then the stadium's availability. `None` lets the POST go
      ahead. */
  method SubmitChecks(f: Form, user: Option<string>, stadiums: seq<Stadium>, bookings: Reply<Booking>,
                      matches: Reply<FriendlyMatch>) returns (refusal: Option<Submit>)
    ensures var a := CheckStadiumAvailability(f.stadiumId, f.date, f.time, bookings, matches);
      refusal.None? <==> user.Some? && FormComplete(f) && !CapacityExceeded(f, stadiums) && a == Available
    ensures var a := CheckStadiumAvailability(f.stadiumId, f.date, f.time, bookings, matches);
      refusal.Some? ==> forall post :: refusal.value == SubmitOutcome(f, user, stadiums, a, post)
  {
    if user.None? {
      return Some(Ignored);
    }
    if f.stadiumId == "" || f.date == "" || f.time == "" || f.team1 == "" {
      return Some(Refused("Error", "Please fill in all required fields."));
    }
    var selected := FindStadium(stadiums, f.stadiumId);
    if selected.Some? && selected.value.capacity.Some? && f.maxPlayers > selected.value.capacity.value {
      return Some(Refused("Error", FriendlyMatches.CapacityMessage(f.maxPlayers, selected.value.capacity.value)));
    }
    var availability := CheckStadiumAvailability(f.stadiumId, f.date, f.time, bookings, matches);
    if availability.Unavailable? {
      return Some(Refused("Stadium Unavailable", availability.reason));
    }
    return None;
  }

  // ---------------------------------------------------------------------
  // The screen's state

  /** The create dialog's state: the form, whether the dialog is shown,
      and whether a creation is under way. */
  class FriendlyMatchesScreen {
    var form: Form
    var showCreateModal: bool
    var creating: bool

    constructor()
      ensures form == BlankForm && !showCreateModal && !creating
    {
      form := BlankForm;
      showCreateModal := false;
      creating := false;
    }

    /** Typing into the max-players field. */
    method SetMaxPlayersText(text: string)
      modifies this
      ensures form == old(form).(maxPlayers := MaxPlayersInput(text))
      ensures showCreateModal == old(showCreateModal) && creating == old(creating)
    {
      form := form.(maxPlayers := MaxPlayersInput(text));
    }

    /** `handleCreateMatchSubmit`: after a created match the dialog closes
        and the form is blank again; otherwise the form stays as typed. */
    method HandleCreateMatchSubmit(user: Option<string>, stadiums: seq<Stadium>, bookings: Reply<Booking>,
                                   matches: Reply<FriendlyMatch>, post: PostReply) returns (outcome: Submit)
      modifies this
      ensures outcome == SubmitOutcome(old(form), user, stadiums,
                                       CheckStadiumAvailability(old(form).stadiumId, old(form).date, old(form).time,
                                                                bookings, matches), post)
      ensures outcome.Posted? && post.PostCreated? ==> form == BlankForm && !showCreateModal
      ensures !(outcome.Posted? && post.PostCreated?) ==> form == old(form) && showCreateModal == old(showCreateModal)
      ensures creating == (old(creating) && !outcome.Posted?)
    {
      var f := form;
      var refusal := SubmitChecks(f, user, stadiums, bookings, matches);
      if refusal.Some? {
        return refusal.value;
      }
      outcome := Create(MatchPayload(f, user.value), post);
    }

    /** The POST itself, once every check has passed. */
    method Create(payload: MatchBody, post: PostReply) returns (outcome: Submit)
      modifies this
      ensures outcome == Posted(payload, PostAlert(post).0, PostAlert(post).1)
      ensures post.PostCreated? ==> form == BlankForm && !showCreateModal
      ensures !post.PostCreated? ==> form == old(form) && showCreateModal == old(showCreateModal)
      ensures !creating
    {
      creating := true;
      match post {
        case PostCreated =>
          outcome := Posted(payload, "Success", "Friendly match created successfully!");
          showCreateModal := false;
          form := BlankForm;
        case PostRefused(e) =>
          outcome := Posted(payload, "Error", TextOr(e, "Failed to create the match."));
        case PostRaised =>
          outcome := Posted(payload, "Error", "Failed to create the match. Please try again.");
      }
      creating := false;
    }
  }

  // ---------------------------------------------------------------------
  // Joining

  /** The "Join Match" button: a pending match, not hosted by the user,
      with room left by the numbers shown. */
  predicate ShowJoin(row: FriendlyMatches.MatchRow, user: Option<string>) {
    row.doc.status == "pending" && (user.None? || row.doc.hostId != user.value)
    && row.currentPlayers < row.maxPlayers
  }

  /** The PUT the button sends. */
  function JoinRequest(matchId: string, userId: string): (q: FriendlyMatches.PutRequest)
    ensures q.matchId == Some(matchId) && q.guestId == Some(userId) && q.action == Some("join")
    ensures q.status.None?
  {
    FriendlyMatches.PutRequest(Some(matchId), Some(userId), None, Some("join"))
  }

  /** The button is never offered on a match the server would refuse as
      full, as long as the stored maximum is not 0 (the listing shows 10
      for a missing or 0 maximum). */
  lemma JoinButtonMeansRoom(m: FriendlyMatch, stadiums: seq<Stadium>, users: seq<User>, user: Option<string>)
    requires m.maxPlayers != Some(0)
    requires ShowJoin(FriendlyMatches.EnrichMatch(m, stadiums, users), user)
    ensures !FriendlyMatches.Full(m)
  {
    var row := FriendlyMatches.EnrichMatch(m, stadiums, users);
    if m.currentPlayers.Some? && m.maxPlayers.Some? && m.currentPlayers.value != 0 {
      assert row.currentPlayers == m.currentPlayers.value && row.maxPlayers == m.maxPlayers.value;
    }
  }

  /** Joining from the button keeps the match's status: the request
      carries none, so a pending match stays pending. */
  lemma JoinKeepsStatus(m: FriendlyMatch, matchId: string, userId: string)
    requires userId != ""
    requires FriendlyMatches.PlanUpdate(m, JoinRequest(matchId, userId)).Ok?
    ensures FriendlyMatches.Apply(m, FriendlyMatches.PlanUpdate(m, JoinRequest(matchId, userId)).body).status
            == m.status
  {
    FriendlyMatches.JoinOutcome(m, JoinRequest(matchId, userId));
  }
}
