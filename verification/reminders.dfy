/**
 * The mobile reminder service: a started/stopped flag with its periodic
 * timer, the one-hour window in which a reservation gets a reminder, the
 * three message tiers, and the trigger arithmetic for the scheduled
 * one-hour and fifteen-minute notifications. Times are integer
 * milliseconds; the current time is a parameter.
 */
module Reminders {
  import opened Common

  const MinuteMs := 60 * 1000
  const HourMs := 60 * MinuteMs

  /** A reservation the service looks at; `start` is the instant of its
      date and time. Sending a reminder marks it in place. */
  class Reservation {
    const id: string
    const stadium: string
    const start: int
    var reminderSent: bool

    constructor(id: string, stadium: string, start: int)
      ensures this.id == id && this.stadium == stadium && this.start == start && !reminderSent
    {
      this.id := id;
      this.stadium := stadium;
      this.start := start;
      this.reminderSent := false;
    }
  }

  /** The reservation starts after `now` and at most an hour later. */
  predicate InWindow(start: int, now: int) {
    0 < start - now <= HourMs
  }

  /** The reservations a check picks: in the window and not yet reminded,
      in list order. */
  function Upcoming(rs: seq<Reservation>, now: int): (r: seq<Reservation>)
    reads rs
    ensures forall i :: 0 <= i < |r| ==> r[i] in rs && InWindow(r[i].start, now) && !r[i].reminderSent
    ensures forall i :: 0 <= i < |rs| && InWindow(rs[i].start, now) && !rs[i].reminderSent ==> rs[i] in r
    ensures |r| <= |rs|
  {
    if rs == [] then []
    else if InWindow(rs[0].start, now) && !rs[0].reminderSent then [rs[0]] + Upcoming(rs[1..], now)
    else Upcoming(rs[1..], now)
  }

  /** `Math.floor(delta / 60000)`. */
  function MinutesUntil(delta: int): (m: int)
    requires 0 < delta <= HourMs
    ensures 0 <= m <= 60
  {
    delta / MinuteMs
  }

  /** The minutes are the whole minutes left, rounded down. */
  lemma MinutesRoundDown(delta: int)
    requires 0 < delta <= HourMs
    ensures MinutesUntil(delta) * MinuteMs <= delta < (MinutesUntil(delta) + 1) * MinuteMs
  {
  }

  datatype Tier = StartsSoon | GetReady | Heads

  /** The tier of the message for a number of minutes. */
  function TierOf(minutes: int): (t: Tier)
    ensures t == StartsSoon <==> minutes <= 15
    ensures t == GetReady <==> 15 < minutes <= 30
    ensures t == Heads <==> 30 < minutes
  {
    if minutes <= 15 then StartsSoon else if minutes <= 30 then GetReady else Heads
  }

  function ReminderMessage(stadium: string, minutes: int): string {
    match TierOf(minutes)
    case StartsSoon => "Your reservation at " + stadium + " starts in " + IntToString(minutes) + " minutes!"
    case GetReady => "Your reservation at " + stadium + " starts in " + IntToString(minutes) + " minutes. Get ready!"
    case Heads => "Reminder: You have a reservation at " + stadium + " in " + IntToString(minutes) + " minutes."
  }

  /** A reminder always goes out in the tier its minutes call for: under
      a quarter of an hour (plus the partial minute) it is "starts in N
      minutes!", and nothing sent can be more than 60 minutes ahead. */
  lemma ReminderTiers(delta: int)
    requires 0 < delta <= HourMs
    ensures delta < 16 * MinuteMs ==> TierOf(MinutesUntil(delta)) == StartsSoon
    ensures 16 * MinuteMs <= delta < 31 * MinuteMs ==> TierOf(MinutesUntil(delta)) == GetReady
    ensures 31 * MinuteMs <= delta ==> TierOf(MinutesUntil(delta)) == Heads
  {
  }

  /** The push notification a reminder sends: titled "Reservation
      Reminder ⏰", with the message for its minutes as its body and the
      reservation's id and stadium as its data. */
  datatype Notification = Notification(reservationId: string, stadium: string, minutes: int) {
    function Body(): string {
      ReminderMessage(stadium, minutes)
    }
  }

  /** The notification for a reservation in the window. */
  function NotificationFor(r: Reservation, now: int): (n: Notification)
    requires InWindow(r.start, now)
    ensures n.reservationId == r.id && n.stadium == r.stadium && 0 <= n.minutes <= 60
  {
    Notification(r.id, r.stadium, MinutesUntil(r.start - now))
  }

  /** `sendReminderIfNeeded`: within the window, send the notification and
      mark the reservation. */
  method SendReminderIfNeeded(r: Reservation, now: int) returns (sent: Option<Notification>)
    modifies r
    ensures InWindow(r.start, now) ==> sent == Some(NotificationFor(r, now)) && r.reminderSent
    ensures !InWindow(r.start, now) ==> sent.None? && r.reminderSent == old(r.reminderSent)
  {
    var timeUntil := r.start - now;
    if timeUntil > 0 && timeUntil <= HourMs {
      var minutesUntil := timeUntil / MinuteMs;
      sent := Some(Notification(r.id, r.stadium, minutesUntil));
      r.reminderSent := true;
    } else {
      sent := None;
    }
  }

  /** The notifications for reservations that are all in the window, in order. */
  function NotificationsFor(us: seq<Reservation>, now: int): (r: seq<Notification>)
    requires forall k :: 0 <= k < |us| ==> InWindow(us[k].start, now)
    ensures |r| == |us|
    ensures forall k :: 0 <= k < |us| ==> r[k] == NotificationFor(us[k], now)
  {
    if us == [] then [] else [NotificationFor(us[0], now)] + NotificationsFor(us[1..], now)
  }

  /** `checkUpcomingReservations`: send a reminder for each upcoming
      reservation, in order. */
  method CheckUpcomingReservations(rs: seq<Reservation>, now: int) returns (sent: seq<Notification>)
    modifies rs
    ensures sent == NotificationsFor(old(Upcoming(rs, now)), now)
    ensures forall r :: r in rs ==> r.reminderSent == (old(r.reminderSent) || InWindow(r.start, now))
    ensures Upcoming(rs, now) == []
  {
    var upcoming := Upcoming(rs, now);
    ghost var done: set<Reservation> := {};
    sent := [];
    var i := 0;
    while i < |upcoming|
      invariant 0 <= i <= |upcoming|
      invariant |sent| == i
      invariant forall k :: 0 <= k < |upcoming| ==> upcoming[k] in rs && InWindow(upcoming[k].start, now)
      invariant forall j :: 0 <= j < |rs| && InWindow(rs[j].start, now) && !old(rs[j].reminderSent) ==>
        rs[j] in upcoming
      invariant forall k :: 0 <= k < i ==> sent[k] == NotificationFor(upcoming[k], now)
      invariant done == set k | 0 <= k < i :: upcoming[k]
      invariant forall j :: 0 <= j < |rs| ==> rs[j].reminderSent == (old(rs[j].reminderSent) || rs[j] in done)
    {
      var notification := SendReminderIfNeeded(upcoming[i], now);
      sent := sent + [notification.value];
      done := done + {upcoming[i]};
      i := i + 1;
    }
    NothingLeft(rs, now);
  }

  /** When every reservation in the window has been reminded, a check at
      the same instant picks nothing. */
  lemma NothingLeft(rs: seq<Reservation>, now: int)
    requires forall r :: r in rs && InWindow(r.start, now) ==> r.reminderSent
    ensures Upcoming(rs, now) == []
  {
  }

  /** A reservation reminded once is never picked again: a later check,
      at any time, skips it. */
  lemma RemindedAtMostOnce(rs: seq<Reservation>, r: Reservation, later: int)
    requires r in rs && r.reminderSent
    ensures r !in Upcoming(rs, later)
  {
  }

  // ---------------------------------------------------------------------
  // Start and stop

  /** The static state of the service: whether it runs, and whether its
      five-minute timer is set. */
  class ReminderService {
    var isRunning: bool
    var timerSet: bool

    constructor()
      ensures !isRunning && !timerSet
    {
      isRunning := false;
      timerSet := false;
    }

    /** `startReminderService`: a second start while running does nothing;
        otherwise set the timer and check at once. */
    method Start(rs: seq<Reservation>, now: int) returns (sent: seq<Notification>)
      modifies this, rs
      ensures old(isRunning) ==> sent == [] && isRunning && timerSet == old(timerSet)
      ensures old(isRunning) ==> forall r :: r in rs ==> r.reminderSent == old(r.reminderSent)
      ensures !old(isRunning) ==> isRunning && timerSet && sent == NotificationsFor(old(Upcoming(rs, now)), now)
      ensures !old(isRunning) ==> forall r :: r in rs ==> r.reminderSent == (old(r.reminderSent) || InWindow(r.start, now))
    {
      if isRunning {
        return [];
      }
      isRunning := true;
      timerSet := true;
      sent := CheckUpcomingReservations(rs, now);
    }

    /** `stopReminderService`: clear the timer and the flag. */
    method Stop()
      modifies this
      ensures !isRunning && !timerSet
    {
      if timerSet {
        timerSet := false;
      }
      isRunning := false;
    }
  }

  // ---------------------------------------------------------------------
  // Scheduled reminders

  /** A notification to fire `seconds` from now. */
  datatype Notice = Notice(title: string, body: string, seconds: int)

  /** `scheduleReservationReminder`: one hour before, and fifteen minutes
      before, each only if still in the future; the second only inside the
      first's branch. */
  function Schedule(stadium: string, start: int, now: int): (r: seq<Notice>)
    ensures |r| <= 2
    ensures |r| >= 1 <==> start - HourMs > now
    ensures |r| >= 1 ==> r[0].seconds == (start - HourMs - now) / 1000 && r[0].seconds >= 0
    ensures |r| == 2 <==> start - HourMs > now && start - 15 * MinuteMs > now
    ensures |r| == 2 ==> r[1].seconds == r[0].seconds + 45 * 60
  {
    if start - HourMs > now then
      var hour := Notice("Reservation Reminder ⏰", "Your reservation at " + stadium + " starts in 1 hour!",
                         (start - HourMs - now) / 1000);
      if start - 15 * MinuteMs > now then
        [hour, Notice("Reservation Starting Soon! 🏃‍♂️", "Your reservation at " + stadium + " starts in 15 minutes!",
                      (start - 15 * MinuteMs - now) / 1000)]
      else [hour]
    else []
  }

  /** Once the one-hour mark has passed nothing is scheduled, not even the
      fifteen-minute reminder whose time is still ahead. */
  lemma LateScheduleSendsNothing(stadium: string, start: int, now: int)
    requires start - HourMs <= now < start - 15 * MinuteMs
    ensures Schedule(stadium, start, now) == []
  {
  }
}
