/**
 * The web friendly-matches page. Its list is local mock data: creating a
 * match puts an `open` match hosted by the current club ("1") at the
 * front, and joining turns the chosen match `confirmed` with that club as
 * its guest. Every step builds a new list; nothing is sent to the server.
 */
module WebFriendlyMatches {
  import opened Common

  /** The current user's club id and name, fixed in the page. */
  const CurrentClub := "1"
  const CurrentClubName := "نادي أثلتيك يونايتد"

  datatype WebMatch = WebMatch(id: string, hostId: string, hostName: string, sportId: string,
                               date: string, time: string, status: string,
                               guestId: Option<string>, guestName: Option<string>)

  /** The create dialog's fields. */
  datatype Form = Form(sportId: string, date: string, time: string)

  const BlankForm := Form("", "", "")

  /** The page's state: the list, the dialog's fields, and whether the
      dialog is open. */
  datatype Page = Page(matches: seq<WebMatch>, form: Form, dialogOpen: bool)

  /** Join is offered on an open match the current club does not host. */
  predicate CanJoin(m: WebMatch) {
    m.status == "open" && m.hostId != CurrentClub
  }

  /** The status badges the page draws. */
  datatype Badge = OpenBadge | ClosedBadge | ConfirmedBadge

  /** `getStatusBadge`: one of three badges, or none for any other status. */
  function StatusBadge(status: string): (b: Option<Badge>)
    ensures b.Some? <==> status in {"open", "closed", "confirmed"}
    ensures b == Some(OpenBadge) <==> status == "open"
    ensures b == Some(ConfirmedBadge) <==> status == "confirmed"
  {
    if status == "open" then Some(OpenBadge)
    else if status == "closed" then Some(ClosedBadge)
    else if status == "confirmed" then Some(ConfirmedBadge)
    else None
  }

  /** `handleCreateMatch`: with a field left empty the page is unchanged
      (and an error toast shows); otherwise the new match, with the id the
      clock gives it, goes to the front, the dialog closes and its fields
      are cleared. */
  function CreateMatch(p: Page, newId: string): (r: Page)
    ensures p.form.sportId == "" || p.form.date == "" || p.form.time == "" ==> r == p
    ensures p.form.sportId != "" && p.form.date != "" && p.form.time != "" ==>
      |r.matches| == |p.matches| + 1 && r.matches[1..] == p.matches
      && r.matches[0].id == newId && r.matches[0].hostId == CurrentClub
      && r.matches[0].status == "open" && r.matches[0].guestId.None?
      && r.matches[0].hostName == CurrentClubName && r.matches[0].guestName.None?
      && r.matches[0].sportId == p.form.sportId && r.matches[0].date == p.form.date
      && r.matches[0].time == p.form.time
      && r.form == BlankForm && !r.dialogOpen
  {
    if p.form.sportId == "" || p.form.date == "" || p.form.time == "" then p
    else
      var m := WebMatch(newId, CurrentClub, CurrentClubName, p.form.sportId, p.form.date, p.form.time,
                        "open", None, None);
      Page([m] + p.matches, BlankForm, false)
  }

  /** The match after the current club joins it. */
  function Joined(m: WebMatch): WebMatch {
    m.(status := "confirmed", guestId := Some(CurrentClub), guestName := Some(CurrentClubName))
  }

  /** `handleJoinMatch`: every match with that id becomes confirmed with
      the current club as guest, whatever its status was; every other
      match is kept as it is, in place. */
  function JoinMatch(ms: seq<WebMatch>, matchId: string): (r: seq<WebMatch>)
    ensures |r| == |ms|
    ensures forall i :: 0 <= i < |ms| && ms[i].id != matchId ==> r[i] == ms[i]
    ensures forall i :: 0 <= i < |ms| && ms[i].id == matchId ==>
      r[i] == ms[i].(status := "confirmed", guestId := Some(CurrentClub), guestName := Some(CurrentClubName))
  {
    if ms == [] then []
    else [if ms[0].id == matchId then Joined(ms[0]) else ms[0]] + JoinMatch(ms[1..], matchId)
  }

  /** A match the current club just created is not joinable by it. */
  lemma CreatedNotJoinable(p: Page, newId: string)
    requires p.form.sportId != "" && p.form.date != "" && p.form.time != ""
    ensures !CanJoin(CreateMatch(p, newId).matches[0])
  {
  }

  /** After a join nothing with that id is joinable any more, and the
      joinability of every other match is as before. */
  lemma JoinClosesOffer(ms: seq<WebMatch>, matchId: string)
    ensures forall i :: 0 <= i < |ms| ==>
      CanJoin(JoinMatch(ms, matchId)[i]) == (ms[i].id != matchId && CanJoin(ms[i]))
  {
  }

  /** Joining twice is joining once. */
  lemma {:induction false} JoinIdempotent(ms: seq<WebMatch>, matchId: string)
    ensures JoinMatch(JoinMatch(ms, matchId), matchId) == JoinMatch(ms, matchId)
  {
    if ms != [] {
      var once := JoinMatch(ms, matchId);
      assert once[1..] == JoinMatch(ms[1..], matchId);
      JoinIdempotent(ms[1..], matchId);
    }
  }

  /** The list never holds a status without a badge: every match the page
      creates or joins has one. */
  lemma StatusesHaveBadges(p: Page, newId: string, matchId: string)
    requires forall i :: 0 <= i < |p.matches| ==> StatusBadge(p.matches[i].status).Some?
    ensures forall i :: 0 <= i < |CreateMatch(p, newId).matches| ==>
      StatusBadge(CreateMatch(p, newId).matches[i].status).Some?
    ensures forall i :: 0 <= i < |p.matches| ==> StatusBadge(JoinMatch(p.matches, matchId)[i].status).Some?
  {
    var c := CreateMatch(p, newId).matches;
    if c != p.matches {
      forall i | 0 <= i < |c| ensures StatusBadge(c[i].status).Some? {
        if i > 0 {
          assert c[i] == p.matches[i - 1];
        }
      }
    }
  }
}
