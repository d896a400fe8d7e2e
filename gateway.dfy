/** The checks the scripts make before calling the SMS gateway, and the values that
    cross that boundary. The HTTP exchange itself is outside the model: a request the
    checks accept is where the model stops, and the gateway's answer is an input. */
module Gateway {
  import opened PyText

  /** The longest message send_sms lets through. */
  const MAX_SMS_LENGTH: int := 160
  /** The German country code every accepted number starts with. */
  const COUNTRY_CODE: string := "49"

  /** A number the gateway accepts: digits only, starting with the country code. */
  function IsGermanNumber(s: string): (b: bool)
    ensures b ==> |s| >= 2 && s[0] == '4' && s[1] == '9' && NoSpace(s) && '+' !in s
  {
    IsDigits(s) && StartsWith(s, COUNTRY_CODE)
  }

  /** The SMS gateway's reply, as the scripts read it: a "status" of "Error" or anything else. */
  datatype SmsReply = SmsSent | SmsError(description: string)

  /** A validation step's verdict: the {"status": "Error", "description": ...} dict it
      returns, or the request it would send. */
  datatype Checked<T> = Rejected(description: string) | Accepted(request: T)

  /** The JSON body of POST /sms/send. */
  datatype SmsRequest = SmsRequest(phoneNumber: string, message: string, sender: string)

  /** The JSON body of POST /team/registerNumber. */
  datatype RegisterRequest = RegisterRequest(phoneNumber: string, teamName: string)

  /** The JSON body of POST /team/addNewTeam. */
  datatype TeamRequest = TeamRequest(teamName: string)
}
