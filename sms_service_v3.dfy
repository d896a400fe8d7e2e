/** sms_service_V3.py: send_sms's checks (the phone number before the length) and
    process_user_response, which adds a third of the daily target on "done". */
module SmsServiceV3 {
  import opened Wrappers
  import opened PyText
  import opened UserRecords
  import opened Gateway

  /** send_sms up to the HTTP request: strips leading '+' (and nothing else), rejects a
      number that is not all digits starting with "49", then a message over 160 characters;
      only a call that passes both builds a request, with the stripped number. */
  function SendSms(phone: string, message: string, sender: string): (r: Checked<SmsRequest>)
    ensures r.Accepted? <==> IsGermanNumber(LStrip(phone, '+')) && |message| <= MAX_SMS_LENGTH
    ensures !IsGermanNumber(LStrip(phone, '+')) ==> r == Rejected("Invalid phone number format.")
    ensures IsGermanNumber(LStrip(phone, '+')) && |message| > MAX_SMS_LENGTH ==>
      r == Rejected("Message exceeds 160 characters.")
    ensures r.Accepted? ==> r.request == SmsRequest(LStrip(phone, '+'), message, sender)
  {
    var number := LStrip(phone, '+');
    if !IsDigits(number) || !StartsWith(number, COUNTRY_CODE) then Rejected("Invalid phone number format.")
    else if |message| > MAX_SMS_LENGTH then Rejected("Message exceeds 160 characters.")
    else Accepted(SmsRequest(number, message, sender))
  }

  /** Whitespace is not stripped: a number with a leading blank is always rejected,
      however valid the rest is, and whatever the message. */
  lemma LeadingBlankRejected(phone: string, message: string, sender: string)
    ensures SendSms(" " + phone, message, sender) == Rejected("Invalid phone number format.")
  {
    assert LStrip(" " + phone, '+') == " " + phone;
  }

  /** Any number of leading '+' is stripped: "++49..." is sent as "49...". */
  lemma PlusesStripped(digits: string, message: string, sender: string)
    requires IsGermanNumber(digits) && |message| <= MAX_SMS_LENGTH
    ensures SendSms("++" + digits, message, sender) == Accepted(SmsRequest(digits, message, sender))
  {
    assert ("++" + digits)[1..] == "+" + digits;
    assert ("+" + digits)[1..] == digits;
    assert LStrip(digits, '+') == digits;
  }

  /** The status dict process_user_response returns. */
  datatype Status = StatusSuccess(description: string) | StatusError(description: string)

  /** The users list after process_user_response: for the first user with exactly this
      phone_number, "done" (any case, not trimmed) adds daily_target / 3 to water_intake and
      any other response changes nothing; every other record and every reminders_sent
      is left as it was. */
  function AfterResponse(users: seq<User>, phone: string, response: string): (r: seq<User>)
    ensures |r| == |users|
    ensures PhoneIndex(users, phone).None? ==> r == users
    ensures PhoneIndex(users, phone).Some? ==>
      var i := PhoneIndex(users, phone).value;
      && (forall j :: 0 <= j < |users| && j != i ==> r[j] == users[j])
      && (Lower(response) == "done" ==> r[i].waterIntake == users[i].waterIntake + users[i].dailyTarget / 3.0)
      && (Lower(response) != "done" ==> r[i] == users[i])
      && r[i] == users[i].(waterIntake := r[i].waterIntake)
  {
    match PhoneIndex(users, phone)
    case None => users
    case Some(i) =>
      if Lower(response) == "done"
      then users[i := users[i].(waterIntake := users[i].waterIntake + users[i].dailyTarget / 3.0)]
      else users
  }

  /** The users.json file the script loads and saves. */
  class UserStore {
    var users: seq<User>

    constructor (users: seq<User>)
      ensures this.users == users
    {
      this.users := users;
    }

    /** process_user_response: an unknown number returns an Error and saves nothing; otherwise
        the record is updated in place, saved, and Success is returned whatever the response. */
    method ProcessUserResponse(phone: string, response: string) returns (status: Status)
      modifies this
      ensures users == AfterResponse(old(users), phone, response)
      ensures PhoneIndex(old(users), phone).None? ==> status == StatusError("User not found.")
      ensures PhoneIndex(old(users), phone).Some? ==> status == StatusSuccess("User response processed.")
    {
      var found := PhoneIndex(users, phone);
      if found.None? {
        return StatusError("User not found.");
      }
      var i := found.value;
      var user := users[i];
      if Lower(response) == "done" {
        user := user.(waterIntake := user.waterIntake + user.dailyTarget / 3.0);
      }
      users := users[i := user];
      status := StatusSuccess("User response processed.");
    }
  }
}
