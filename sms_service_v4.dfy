/** sms_service_V4_Elena_intake.py: process_user_response with explicit "done" and
    "skip" branches; any other response falls through both and is still a Success. */
module SmsServiceV4ElenaIntake {
  import opened Wrappers
  import opened PyText
  import opened UserRecords

  /** The status dict process_user_response returns. */
  datatype Status = StatusSuccess(description: string) | StatusError(description: string)

  /** How process_user_response reads a reply (lower-cased, not trimmed). */
  datatype Reply = Done | Skip | Unrecognised

  function ReadReply(response: string): (r: Reply)
    ensures r == Done <==> Lower(response) == "done"
    ensures r == Skip <==> Lower(response) == "skip"
  {
    var lowered := Lower(response);
    if lowered == "done" then Done else if lowered == "skip" then Skip else Unrecognised
  }

  /** The users list after process_user_response: "done" adds daily_target / 3 to the
      water_intake of the first user with this phone_number; "skip" and unrecognised replies
      leave it unchanged; no other record and no other field changes. */
  function AfterResponse(users: seq<User>, phone: string, response: string): (r: seq<User>)
    ensures |r| == |users|
    ensures PhoneIndex(users, phone).None? ==> r == users
    ensures PhoneIndex(users, phone).Some? ==>
      var i := PhoneIndex(users, phone).value;
      && (forall j :: 0 <= j < |users| && j != i ==> r[j] == users[j])
      && (ReadReply(response) == Done ==> r[i].waterIntake == users[i].waterIntake + users[i].dailyTarget / 3.0)
      && (ReadReply(response) == Skip ==> r[i] == users[i])
      && (ReadReply(response) == Unrecognised ==> r[i] == users[i])
      && r[i] == users[i].(waterIntake := r[i].waterIntake)
  {
    match PhoneIndex(users, phone)
    case None => users
    case Some(i) =>
      match ReadReply(response)
      case Done => users[i := users[i].(waterIntake := users[i].waterIntake + users[i].dailyTarget / 3.0)]
      case Skip => users
      case Unrecognised => users
  }

  /** The user_data.json file the script loads and saves. */
  class UserStore {
    var users: seq<User>

    constructor (users: seq<User>)
      ensures this.users == users
    {
      this.users := users;
    }

    /** process_user_response: an unknown number returns an Error and saves nothing; otherwise
        water_intake is increased in place on "done", the file is saved, and Success is
        returned for every response. */
    method ProcessUserResponse(phone: string, response: string) returns (status: Status)
      modifies this
      ensures users == AfterResponse(old(users), phone, response)
      ensures PhoneIndex(old(users), phone).None? ==> status == StatusError("User not found.")
      ensures PhoneIndex(old(users), phone).Some? ==> status == StatusSuccess("User response processed.")
    {
      var found := PhoneIndex(users, phone);
      if found.None? {
        return StatusError("User not found.");
      }
      var i := found.value;
      var reply := ReadReply(response);
      if reply == Done {
        users := users[i := users[i].(waterIntake := users[i].waterIntake + users[i].dailyTarget / 3.0)];
      } else if reply == Skip {
        // no water is added for a skipped reminder
      }
      status := StatusSuccess("User response processed.");
    }
  }
}
