/** sms_service.py: the checks add_new_team, register_number and send_sms make before
    they build a request for the gateway. */
module SmsService {
  import opened PyText
  import opened Gateway

  /** add_new_team: the name, stripped of surrounding whitespace, must be non-empty and
      all letters; only then is a request built, with the stripped name. */
  function AddNewTeam(teamName: string): (r: Checked<TeamRequest>)
    ensures r.Accepted? <==> Strip(teamName) != [] && IsAlphas(Strip(teamName))
    ensures r.Rejected? ==> r.description == "Invalid team name."
    ensures r.Accepted? ==> r.request == TeamRequest(Strip(teamName))
  {
    var name := Strip(teamName);
    if name == [] || !IsAlphas(name) then Rejected("Invalid team name.")
    else Accepted(TeamRequest(name))
  }

  /** A name with a blank inside is refused even though stripping removes the outer ones. */
  lemma InnerBlankRefused(first: string, second: string)
    requires IsAlphas(first) && IsAlphas(second)
    ensures AddNewTeam(first + " " + second) == Rejected("Invalid team name.")
  {
    var s := first + " " + second;
    assert !IsSpace(s[0]) && !IsSpace(s[|s| - 1]);
    StripNoSpace(s);
    assert s[|first|] == ' ';
  }

  /** The number both register_number and send_sms send: surrounding whitespace removed,
      then every leading '+'. */
  function Normalise(phone: string): (n: string)
    ensures |n| <= |phone|
    ensures n != [] ==> n[0] != '+'
  {
    LStrip(Strip(phone), '+')
  }

  /** register_number: after normalising, a number that is not all digits is refused
      first, then one that does not start with "49", each with its own description. */
  function RegisterNumber(phone: string, teamName: string): (r: Checked<RegisterRequest>)
    ensures r.Accepted? <==> IsGermanNumber(Normalise(phone))
    ensures !IsDigits(Normalise(phone)) ==> r == Rejected("Invalid phone number format.")
    ensures IsDigits(Normalise(phone)) && !StartsWith(Normalise(phone), COUNTRY_CODE) ==>
      r == Rejected("Phone number must start with country code 49.")
    ensures r.Accepted? ==> r.request == RegisterRequest(Normalise(phone), teamName)
  {
    var number := Normalise(phone);
    if !IsDigits(number) then Rejected("Invalid phone number format.")
    else if !StartsWith(number, COUNTRY_CODE) then Rejected("Phone number must start with country code 49.")
    else Accepted(RegisterRequest(number, teamName))
  }

  /** send_sms: the length is checked first (more than 160 characters is refused,
      exactly 160 passes), then the normalised number must be digits starting with "49". */
  function SendSms(phone: string, message: string, sender: string): (r: Checked<SmsRequest>)
    ensures r.Accepted? <==> |message| <= MAX_SMS_LENGTH && IsGermanNumber(Normalise(phone))
    ensures |message| > MAX_SMS_LENGTH ==> r == Rejected("Message length exceeds limit.")
    ensures |message| <= MAX_SMS_LENGTH && !IsGermanNumber(Normalise(phone)) ==>
      r == Rejected("Invalid phone number format.")
    ensures r.Accepted? ==> r.request == SmsRequest(Normalise(phone), message, sender)
  {
    if |message| > MAX_SMS_LENGTH then Rejected("Message length exceeds limit.")
    else
      var number := Normalise(phone);
      if !IsDigits(number) || !StartsWith(number, COUNTRY_CODE) then Rejected("Invalid phone number format.")
      else Accepted(SmsRequest(number, message, sender))
  }

  /** A number the checks accept is already normal: sending it again is accepted with
      the very same number. */
  lemma {:induction false} AcceptedNumberIsNormal(phone: string, teamName: string)
    requires RegisterNumber(phone, teamName).Accepted?
    ensures var n := RegisterNumber(phone, teamName).request.phoneNumber;
      Normalise(n) == n && RegisterNumber(n, teamName) == RegisterNumber(phone, teamName)
  {
    var n := Normalise(phone);
    assert NoSpace(n) by {
      forall i | 0 <= i < |n| ensures !IsSpace(n[i]) { assert IsDigit(n[i]); }
    }
    assert Strip(n) == n;
    assert n[0] != '+' by { assert IsDigit(n[0]); }
  }

  lemma {:induction false} StripLeftPadded(digits: string)
    requires IsDigits(digits)
    ensures StripLeft(" +" + digits + " ") == ['+'] + digits + [' ']
  {
    var s := " +" + digits + " ";
    assert s[1..] == ['+'] + digits + [' '];
  }

  lemma {:induction false} StripRightPadded(digits: string)
    requires IsDigits(digits)
    ensures StripRight(['+'] + digits + [' ']) == ['+'] + digits
  {
    var plus := ['+'] + digits;
    assert IsDigit(plus[|plus| - 1]);
    assert (plus + [' '])[..|plus|] == plus;
  }

  lemma {:induction false} LStripPlus(digits: string)
    requires IsDigits(digits)
    ensures LStrip(['+'] + digits, '+') == digits
  {
    assert (['+'] + digits)[1..] == digits;
    assert IsDigit(digits[0]);
  }

  /** A blank, a '+', the digits and a blank normalise to the bare digits. */
  lemma {:induction false} NormalisePadded(digits: string)
    requires IsDigits(digits)
    ensures Normalise(" +" + digits + " ") == digits
  {
    StripLeftPadded(digits);
    StripRightPadded(digits);
    LStripPlus(digits);
  }

  /** A number written with a blank, a '+' and a trailing blank is accepted by both
      register_number and send_sms, as its bare digits. */
  lemma PaddedNumberAccepted(digits: string, message: string, sender: string, teamName: string)
    requires IsGermanNumber(digits) && |message| <= MAX_SMS_LENGTH
    ensures SendSms(" +" + digits + " ", message, sender) == Accepted(SmsRequest(digits, message, sender))
    ensures RegisterNumber(" +" + digits + " ", teamName) == Accepted(RegisterRequest(digits, teamName))
  {
    NormalisePadded(digits);
  }
}
