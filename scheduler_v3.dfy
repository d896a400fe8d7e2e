/** scheduler_V3.py: send_reminder counts a reminder when it is sent (whatever the
    gateway replies) and saves; startup resets every counter; schedule_reminders
    registers one job per user. */
module SchedulerV3 {
  import opened Wrappers
  import opened UserRecords
  import opened Gateway

  const NOTIFICATION_LIMIT: int := 3
  const NOTIFICATION_INTERVAL_MINUTES: int := 1
  /** The max_length send_reminder passes to the quote provider. */
  const QUOTE_MAX_LENGTH: int := 150

  /** The reminder SMS "{motivation} Don't forget to drink approximately {litres} liters of water." */
  datatype ReminderSms = ReminderSms(motivation: string, litres: real)

  /** What send_reminder does: one of its three early returns, or the SMS it sent with the gateway's reply. */
  datatype ReminderOutcome =
    | UserNotFound
    | LimitReached
    | NoValidTarget
    | Sent(phone: string, sms: ReminderSms, reply: SmsReply)

  /** The guards of send_reminder pass: the user exists, is below the limit and has a positive target. */
  function Eligible(users: seq<User>, username: string): (b: bool)
    ensures b <==> exists i ::
      && 0 <= i < |users| && users[i].username == username
      && (forall j :: 0 <= j < i ==> users[j].username != username)
      && users[i].remindersSent < NOTIFICATION_LIMIT && users[i].dailyTarget > 0.0
  {
    match UserIndex(users, username)
    case None => false
    case Some(i) => users[i].remindersSent < NOTIFICATION_LIMIT && users[i].dailyTarget > 0.0
  }

  /** The users list after one send_reminder call: when the guards pass, the first record
      named `username` has one more reminder counted, and nothing else changes. */
  function AfterReminder(users: seq<User>, username: string): (r: seq<User>)
    ensures |r| == |users|
    ensures !Eligible(users, username) ==> r == users
    ensures Eligible(users, username) ==>
      var i := UserIndex(users, username).value;
      r == users[i := users[i].(remindersSent := users[i].remindersSent + 1)]
    ensures forall j :: 0 <= j < |users| && users[j].username != username ==> r[j] == users[j]
  {
    if Eligible(users, username) then
      var i := UserIndex(users, username).value;
      users[i := users[i].(remindersSent := users[i].remindersSent + 1)]
    else users
  }

  /** Every user's counter is at most NOTIFICATION_LIMIT. */
  predicate WithinLimit(users: seq<User>) {
    forall j :: 0 <= j < |users| ==> users[j].remindersSent <= NOTIFICATION_LIMIT
  }

  /** One send_reminder call keeps every counter within the limit. */
  lemma ReminderKeepsLimit(users: seq<User>, username: string)
    requires WithinLimit(users)
    ensures WithinLimit(AfterReminder(users, username))
  {
  }

  /** The users list after send_reminder has run for each name in turn. */
  function AfterReminders(users: seq<User>, names: seq<string>): (r: seq<User>)
    decreases |names|
  {
    if names == [] then users else AfterReminders(AfterReminder(users, names[0]), names[1..])
  }

  /** However many reminders are sent, no counter that started within the limit leaves it. */
  lemma {:induction false} RemindersStayWithinLimit(users: seq<User>, names: seq<string>)
    requires WithinLimit(users)
    ensures WithinLimit(AfterReminders(users, names))
    decreases |names|
  {
    if names != [] {
      ReminderKeepsLimit(users, names[0]);
      RemindersStayWithinLimit(AfterReminder(users, names[0]), names[1..]);
    }
  }

  /** The persisted users file the script loads and saves. */
  class UserStore {
    var users: seq<User>

    constructor (users: seq<User>)
      ensures this.users == users
    {
      this.users := users;
    }

    /** send_reminder: after the three guards, sends the reminder, then increments the
        counter in place and saves, whatever `reply` the gateway gave. */
    method SendReminder(username: string, quotes: int -> Quote, reply: SmsReply)
      returns (r: ReminderOutcome)
      modifies this
      ensures users == AfterReminder(old(users), username)
      ensures r.UserNotFound? <==> UserIndex(old(users), username).None?
      ensures r.Sent? <==> Eligible(old(users), username)
      ensures r.Sent? ==>
        var u := old(users)[UserIndex(old(users), username).value];
        && r.phone == u.phoneNumber
        && r.sms == ReminderSms(Motivation(quotes(QUOTE_MAX_LENGTH)), Portion(u.dailyTarget))
        && r.reply == reply
        && users[UserIndex(old(users), username).value].remindersSent == u.remindersSent + 1
      ensures r.LimitReached? ==>
        old(users)[UserIndex(old(users), username).value].remindersSent >= NOTIFICATION_LIMIT
      ensures WithinLimit(old(users)) ==> WithinLimit(users)
    {
      var found := UserIndex(users, username);
      if found.None? {
        return UserNotFound;
      }
      var i := found.value;
      var sent := users[i].remindersSent;
      if sent >= NOTIFICATION_LIMIT {
        return LimitReached;
      }
      var target := users[i].dailyTarget;
      var phone := users[i].phoneNumber;
      if target <= 0.0 {
        return NoValidTarget;
      }
      var sms := ReminderSms(Motivation(quotes(QUOTE_MAX_LENGTH)), Portion(target));
      r := Sent(phone, sms, reply);
      users := users[i := users[i].(remindersSent := sent + 1)];
      if WithinLimit(old(users)) {
        ReminderKeepsLimit(old(users), username);
      }
    }

    /** The startup loop: sets every reminders_sent to 0 in place, then saves. */
    method ResetReminders()
      modifies this
      ensures |users| == |old(users)|
      ensures forall j :: 0 <= j < |users| ==> users[j] == old(users)[j].(remindersSent := 0)
      ensures WithinLimit(users)
    {
      var k := 0;
      while k < |users|
        invariant 0 <= k <= |users| == |old(users)|
        invariant forall j :: 0 <= j < k ==> users[j] == old(users)[j].(remindersSent := 0)
        invariant forall j :: k <= j < |users| ==> users[j] == old(users)[j]
      {
        users := users[k := users[k].(remindersSent := 0)];
        k := k + 1;
      }
    }
  }

  /** A job the scheduler runs every `minutes` minutes: send_reminder(username). */
  datatype Job = ReminderJob(username: string, minutes: int)

  /** schedule_reminders: one reminder job per user, in the order of the users list. */
  method ScheduleReminders(users: seq<User>) returns (jobs: seq<Job>)
    ensures |jobs| == |users|
    ensures forall k :: 0 <= k < |users| ==>
      jobs[k] == ReminderJob(users[k].username, NOTIFICATION_INTERVAL_MINUTES)
  {
    jobs := [];
    for k := 0 to |users|
      invariant |jobs| == k
      invariant forall j :: 0 <= j < k ==> jobs[j] == ReminderJob(users[j].username, NOTIFICATION_INTERVAL_MINUTES)
    {
      jobs := jobs + [ReminderJob(users[k].username, NOTIFICATION_INTERVAL_MINUTES)];
    }
  }
}
