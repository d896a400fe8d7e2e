/** schedule_management.py: reminders, reply handling and the daily summary over the
    {"users": [...]} store. send_reminder and send_daily_statistics only read the store
    and decide which SMS to send; handle_user_response updates one record and saves. */
module ScheduleManagement {
  import opened Wrappers
  import opened PyText
  import opened UserRecords
  import SmsService

  const NOTIFICATION_LIMIT: int := 3
  const NOTIFICATION_INTERVAL_MINUTES: int := 1
  /** The max_length send_reminder passes to the quote provider. */
  const QUOTE_MAX_LENGTH: int := 100

  /** The reminder SMS "{motivation} Don't forget to drink {litres}l." */
  datatype ReminderSms = ReminderSms(motivation: string, litres: real)

  /** What send_reminder does: one of its three early returns, or the send_sms call it
      makes with this number and text. Whether send_sms then refuses the number is
      sms_service.py's decision (see DefaultNumberRefused). */
  datatype ReminderOutcome =
    | UserNotFound
    | LimitReached
    | NoValidTarget
    | Sent(phone: string, sms: ReminderSms)

  /** send_reminder: looks the user up and calls send_sms with a reminder unless the user is absent,
      has had NOTIFICATION_LIMIT reminders already, or has no positive daily target.
      It reads the store and never writes it. */
  function SendReminder(users: seq<User>, username: string, quotes: int -> Quote): (r: ReminderOutcome)
    ensures r.UserNotFound? <==> UserIndex(users, username).None?
    ensures r.Sent? <==>
      (UserIndex(users, username).Some? &&
       users[UserIndex(users, username).value].remindersSent < NOTIFICATION_LIMIT &&
       users[UserIndex(users, username).value].dailyTarget > 0.0)
    ensures r.Sent? ==>
      var u := users[UserIndex(users, username).value];
      r.phone == u.phoneNumber &&
      r.sms == ReminderSms(Motivation(quotes(QUOTE_MAX_LENGTH)), Portion(u.dailyTarget))
    ensures r.LimitReached? ==> users[UserIndex(users, username).value].remindersSent >= NOTIFICATION_LIMIT
  {
    match UserIndex(users, username)
    case None => UserNotFound
    case Some(i) =>
      var u := users[i];
      if u.remindersSent >= NOTIFICATION_LIMIT then LimitReached
      else if u.dailyTarget <= 0.0 then NoValidTarget
      else Sent(u.phoneNumber, ReminderSms(Motivation(quotes(QUOTE_MAX_LENGTH)), Portion(u.dailyTarget)))
  }

  /** send_reminder calls send_sms for a record whose phone_number is the .get default
      "Unknown Number", and send_sms refuses that number whatever the text: a reminder
      the guards let through is not necessarily delivered. */
  lemma DefaultNumberRefused(quotes: int -> Quote, text: string, sender: string)
    ensures var users := [User(1, "bob", "Unknown Number", "male", 30, 80.0, 2.0, 0.0, 0)];
      var r := SendReminder(users, "bob", quotes);
      && r.Sent? && r.phone == "Unknown Number"
      && SmsService.SendSms(r.phone, text, sender).Rejected?
  {
    var phone := "Unknown Number";
    StripNoSpace(phone);
    assert SmsService.Normalise(phone) == phone;
    assert !IsDigit(phone[0]);
  }

  /** The reply after strip() and lower(). */
  function CleanReply(message: string): (r: string)
    ensures |r| <= |message|
    ensures forall i :: 0 <= i < |r| ==> !IsUpper(r[i])
    ensures r != [] ==> !IsSpace(r[0]) && !IsSpace(r[|r| - 1])
  {
    var stripped := Strip(message);
    assert stripped != [] ==> Lower(stripped)[0] == LowerChar(stripped[0]);
    assert stripped != [] ==> Lower(stripped)[|stripped| - 1] == LowerChar(stripped[|stripped| - 1]);
    Lower(stripped)
  }

  /** The store update of handle_user_response, before the follow-up reminder. */
  datatype ReplyEffect =
    | ReplyUserNotFound
    | InvalidReply
    | Recorded(index: nat, users: seq<User>)

  /** handle_user_response's update: an unknown user or a reply other than "done"/"skip"
      changes nothing; otherwise the first matching record gets reminders_sent + 1 and,
      on "done", one portion more water_intake, and no other record changes. */
  function RecordReply(users: seq<User>, username: string, message: string): (e: ReplyEffect)
    ensures e.ReplyUserNotFound? <==> UserIndex(users, username).None?
    ensures e.InvalidReply? <==>
      UserIndex(users, username).Some? && CleanReply(message) != "done" && CleanReply(message) != "skip"
    ensures e.Recorded? ==> UserIndex(users, username) == Some(e.index) && |e.users| == |users|
    ensures e.Recorded? ==> forall j :: 0 <= j < |users| && j != e.index ==> e.users[j] == users[j]
    ensures e.Recorded? ==> e.users[e.index].remindersSent == users[e.index].remindersSent + 1
    ensures e.Recorded? && CleanReply(message) == "done" ==>
      e.users[e.index].waterIntake == users[e.index].waterIntake + Portion(users[e.index].dailyTarget)
    ensures e.Recorded? && CleanReply(message) == "skip" ==>
      e.users[e.index].waterIntake == users[e.index].waterIntake
    ensures e.Recorded? ==>
      e.users[e.index] == users[e.index].(remindersSent := e.users[e.index].remindersSent,
                                          waterIntake := e.users[e.index].waterIntake)
  {
    match UserIndex(users, username)
    case None => ReplyUserNotFound
    case Some(i) =>
      var reply := CleanReply(message);
      if reply != "done" && reply != "skip" then InvalidReply
      else
        var u := users[i];
        var drunk := if reply == "done" then u.waterIntake + Portion(u.dailyTarget) else u.waterIntake;
        Recorded(i, users[i := u.(waterIntake := drunk, remindersSent := u.remindersSent + 1)])
  }

  /** Replies are counted without looking at the limit: a reply to a user who already has
      NOTIFICATION_LIMIT reminders pushes reminders_sent above it. */
  lemma RepliesAreNotCapped(users: seq<User>, username: string)
    requires UserIndex(users, username).Some?
    requires users[UserIndex(users, username).value].remindersSent == NOTIFICATION_LIMIT
    ensures var e := RecordReply(users, username, "skip");
      e.Recorded? && e.users[e.index].remindersSent == NOTIFICATION_LIMIT + 1
  {
    LowerWordClean("skip");
  }

  /** A reply of "done" is read as "done". */
  lemma DoneIsClean()
    ensures CleanReply("done") == "done"
  {
    var done := "done";
    assert forall i :: 0 <= i < |done| ==> 'a' <= done[i] <= 'z';
    LowerWordClean(done);
  }

  /** A daily target of 2.0 litres asks for 0.67 litres per reminder. */
  lemma PortionOfTwoLitres()
    ensures Portion(2.0) == 0.67
  {
    assert (2.0 / 3.0 * 100.0).Floor == 66;
  }

  /** A user with a 2.0-litre target who answers "done" to three reminders has 2.01
      litres recorded, three replies counted, and gets the "hit your water goal" summary. */
  lemma {:induction false} ThreeDoneReplies()
    ensures var u0 := [User(1, "alice", "491700000000", "female", 25, 60.0, 2.0, 0.0, 0)];
      var e1 := RecordReply(u0, "alice", "done");
      e1.Recorded? &&
      var e2 := RecordReply(e1.users, "alice", "done");
      e2.Recorded? &&
      var e3 := RecordReply(e2.users, "alice", "done");
      && e3.Recorded?
      && e3.users[0].waterIntake == 2.01
      && e3.users[0].remindersSent == 3
      && DailyStatistics(e3.users, "alice") == Summary("491700000000", HitYourGoal, 2.01, 2.0)
  {
    DoneIsClean();
    PortionOfTwoLitres();
    var u0 := [User(1, "alice", "491700000000", "female", 25, 60.0, 2.0, 0.0, 0)];
    var e1 := RecordReply(u0, "alice", "done");
    assert e1.users == [u0[0].(waterIntake := 0.67, remindersSent := 1)];
    var e2 := RecordReply(e1.users, "alice", "done");
    assert e2.users == [u0[0].(waterIntake := 1.34, remindersSent := 2)];
    var e3 := RecordReply(e2.users, "alice", "done");
    assert e3.users == [u0[0].(waterIntake := 2.01, remindersSent := 3)];
    assert (2.01 * 100.0).Floor == 201;
    assert Round2(2.01) == 2.01;
  }

  /** What handle_user_response ends with. */
  datatype ResponseOutcome =
    | ResponseUserNotFound
    | ResponseInvalid
    | AllRemindersDone
    | FollowUp(next: ReminderOutcome)

  /** The record of user i after an accepted reply. */
  function Replied(u: User, reply: string): (r: User)
    ensures r.remindersSent == u.remindersSent + 1
    ensures reply == "done" ==> r.waterIntake == u.waterIntake + Portion(u.dailyTarget)
    ensures reply != "done" ==> r.waterIntake == u.waterIntake
    ensures r == u.(remindersSent := r.remindersSent, waterIntake := r.waterIntake)
  {
    var drunk := if reply == "done" then u.waterIntake + Portion(u.dailyTarget) else u.waterIntake;
    u.(waterIntake := drunk, remindersSent := u.remindersSent + 1)
  }

  /** An accepted reply records exactly the updated first matching record. */
  lemma RecordedAt(users: seq<User>, username: string, message: string, i: nat)
    requires UserIndex(users, username) == Some(i)
    requires CleanReply(message) == "done" || CleanReply(message) == "skip"
    ensures RecordReply(users, username, message) == Recorded(i, users[i := Replied(users[i], CleanReply(message))])
  {
  }

  /** The persisted users file the script loads and saves. */
  class UserStore {
    var users: seq<User>

    constructor (users: seq<User>)
      ensures this.users == users
    {
      this.users := users;
    }

    /** handle_user_response: records an accepted reply in place and saves; then, if the
        new reminders_sent is below NOTIFICATION_LIMIT, runs send_reminder on the saved store. */
    method HandleUserResponse(username: string, message: string, quotes: int -> Quote)
      returns (r: ResponseOutcome)
      modifies this
      ensures var e := RecordReply(old(users), username, message);
        && (e.Recorded? ==> users == e.users)
        && (!e.Recorded? ==> users == old(users))
        && (r.ResponseUserNotFound? <==> e.ReplyUserNotFound?)
        && (r.ResponseInvalid? <==> e.InvalidReply?)
        && (r.FollowUp? <==> e.Recorded? && users[e.index].remindersSent < NOTIFICATION_LIMIT)
      ensures r.FollowUp? ==> r.next == SendReminder(users, username, quotes)
    {
      var found := UserIndex(users, username);
      if found.None? {
        return ResponseUserNotFound;
      }
      var reply := CleanReply(message);
      if reply != "done" && reply != "skip" {
        return ResponseInvalid;
      }
      var i := found.value;
      RecordedAt(users, username, message, i);
      var user := Replied(users[i], reply);
      users := users[i := user];
      if user.remindersSent >= NOTIFICATION_LIMIT {
        return AllRemindersDone;
      }
      var next := SendReminder(users, username, quotes);
      r := FollowUp(next);
    }
  }

  /** The three summaries send_daily_statistics has a text for. */
  datatype Tier = CouldDrinkMore | OnTheRightTrack | HitYourGoal

  /** What send_daily_statistics does: an early return, one of its two failures, or the summary SMS. */
  datatype StatsOutcome =
    | StatsUserNotFound
    | DivisionByZero
    | MessageUnassigned
    | Summary(phone: string, tier: Tier, drank: real, target: real)

  /** The share of the target reached, in percent. */
  function Percentage(drank: real, target: real): (pct: real)
    requires target != 0.0
    ensures pct * target == drank * 100.0
  {
    drank / target * 100.0
  }

  /** send_daily_statistics as written: below 50% "could drink more", 50% to below 80%
      "on the right track", 95% or more "hit your water goal"; a zero target divides by
      zero and 80% to below 95% reaches send_sms with `message` never assigned. */
  function DailyStatistics(users: seq<User>, username: string): (r: StatsOutcome)
    ensures r.StatsUserNotFound? <==> UserIndex(users, username).None?
    ensures r.DivisionByZero? <==>
      UserIndex(users, username).Some? && users[UserIndex(users, username).value].dailyTarget == 0.0
    ensures UserIndex(users, username).Some? && users[UserIndex(users, username).value].dailyTarget != 0.0 ==>
      var u := users[UserIndex(users, username).value];
      var p := Percentage(Round2(u.waterIntake), u.dailyTarget);
      && (r.MessageUnassigned? <==> 80.0 <= p < 95.0)
      && (r == Summary(u.phoneNumber, CouldDrinkMore, Round2(u.waterIntake), u.dailyTarget) <==> p < 50.0)
      && (r == Summary(u.phoneNumber, OnTheRightTrack, Round2(u.waterIntake), u.dailyTarget) <==> 50.0 <= p < 80.0)
      && (r == Summary(u.phoneNumber, HitYourGoal, Round2(u.waterIntake), u.dailyTarget) <==> p >= 95.0)
  {
    match UserIndex(users, username)
    case None => StatsUserNotFound
    case Some(i) =>
      var u := users[i];
      var drank := Round2(u.waterIntake);
      if u.dailyTarget == 0.0 then DivisionByZero
      else
        var p := Percentage(drank, u.dailyTarget);
        if p < 50.0 then Summary(u.phoneNumber, CouldDrinkMore, drank, u.dailyTarget)
        else if 50.0 <= p < 80.0 then Summary(u.phoneNumber, OnTheRightTrack, drank, u.dailyTarget)
        else if p >= 95.0 then Summary(u.phoneNumber, HitYourGoal, drank, u.dailyTarget)
        else MessageUnassigned
  }

  /** A user at 85% of the target: the source has no message for this case. */
  lemma StatisticsGapExample()
    ensures DailyStatistics([User(1, "alice", "491700000000", "female", 25, 60.0, 2.0, 1.7, 3)], "alice")
            == MessageUnassigned
  {
    assert (1.7 * 100.0).Floor == 170;
    assert Round2(1.7) == 1.7;
  }

  /** The summary with the 80%-95% gap closed as the "on the right track" tier. */
  function DailyStatisticsClosed(users: seq<User>, username: string): (r: StatsOutcome)
    ensures !r.MessageUnassigned?
    ensures r.StatsUserNotFound? <==> UserIndex(users, username).None?
    ensures r.DivisionByZero? <==>
      UserIndex(users, username).Some? && users[UserIndex(users, username).value].dailyTarget == 0.0
  {
    match UserIndex(users, username)
    case None => StatsUserNotFound
    case Some(i) =>
      var u := users[i];
      var drank := Round2(u.waterIntake);
      if u.dailyTarget == 0.0 then DivisionByZero
      else
        var p := Percentage(drank, u.dailyTarget);
        if p < 50.0 then Summary(u.phoneNumber, CouldDrinkMore, drank, u.dailyTarget)
        else if p < 95.0 then Summary(u.phoneNumber, OnTheRightTrack, drank, u.dailyTarget)
        else Summary(u.phoneNumber, HitYourGoal, drank, u.dailyTarget)
  }

  /** The closed summary agrees with the source wherever the source has a message. */
  lemma ClosedStatisticsAgrees(users: seq<User>, username: string)
    ensures DailyStatistics(users, username) != MessageUnassigned ==>
            DailyStatisticsClosed(users, username) == DailyStatistics(users, username)
    ensures DailyStatistics(users, username) == MessageUnassigned ==>
            DailyStatisticsClosed(users, username).Summary? &&
            DailyStatisticsClosed(users, username).tier == OnTheRightTrack
  {
  }

  /** A job the scheduler runs every `minutes` minutes: send_reminder(username). */
  datatype Job = ReminderJob(username: string, minutes: int)

  /** schedule_reminders: one reminder job per user, in the order of the users list. */
  method ScheduleReminders(users: seq<User>) returns (jobs: seq<Job>)
    ensures |jobs| == |users|
    ensures forall k :: 0 <= k < |users| ==>
      jobs[k] == ReminderJob(users[k].username, NOTIFICATION_INTERVAL_MINUTES)
  {
    jobs := [];
    var k := 0;
    while k < |users|
      invariant 0 <= k <= |users|
      invariant |jobs| == k
      invariant forall j :: 0 <= j < k ==> jobs[j] == ReminderJob(users[j].username, NOTIFICATION_INTERVAL_MINUTES)
    {
      jobs := jobs + [ReminderJob(users[k].username, NOTIFICATION_INTERVAL_MINUTES)];
      k := k + 1;
    }
  }
}
