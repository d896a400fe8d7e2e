/** testfile.py: load_from_file's default and the checks register_number and send_sms
    make before they build a request. This file's checks differ from sms_service.py's:
    exactly one leading '+' is removed by register_number, none by send_sms, and no
    whitespace is stripped. */
module Testfile {
  import opened Wrappers
  import opened PyText
  import opened Gateway
  import opened JsonValues

  /** load_from_file: a missing file reads as an empty list; a file that is not valid
      JSON raises JSONDecodeError to the caller. */
  function LoadFromFile(file: JsonFile): (r: Result<Json, string>)
    ensures file.FileNotFound? ==> r == Success(Arr([]))
    ensures file.Undecodable? ==> r == Failure("JSONDecodeError")
    ensures file.Decoded? ==> r == Success(file.doc)
  {
    match file
    case FileNotFound => Success(Arr([]))
    case Undecodable => Failure("JSONDecodeError")
    case Decoded(doc) => Success(doc)
  }

  /** The number register_number checks: one leading '+' removed, nothing else. */
  function DropOnePlus(phone: string): (n: string)
    ensures StartsWith(phone, "+") ==> n == phone[1..]
    ensures !StartsWith(phone, "+") ==> n == phone
  {
    if StartsWith(phone, "+") then phone[1..] else phone
  }

  /** register_number: after dropping one '+', a number that is not all digits is
      refused first, then one that does not start with "49". */
  function RegisterNumber(phone: string, teamName: string): (r: Checked<RegisterRequest>)
    ensures r.Accepted? <==> IsGermanNumber(DropOnePlus(phone))
    ensures !IsDigits(DropOnePlus(phone)) ==> r == Rejected("Invalid phone number format.")
    ensures IsDigits(DropOnePlus(phone)) && !StartsWith(DropOnePlus(phone), COUNTRY_CODE) ==>
      r == Rejected("Phone number must start with country code 49.")
    ensures r.Accepted? ==> r.request == RegisterRequest(DropOnePlus(phone), teamName)
  {
    var number := DropOnePlus(phone);
    if !IsDigits(number) then Rejected("Invalid phone number format.")
    else if !StartsWith(number, COUNTRY_CODE) then Rejected("Phone number must start with country code 49.")
    else Accepted(RegisterRequest(number, teamName))
  }

  /** send_sms: a message over 160 characters is refused before the number is looked
      at; the number itself must already be digits starting with "49". */
  function SendSms(phone: string, message: string, sender: string): (r: Checked<SmsRequest>)
    ensures r.Accepted? <==> |message| <= MAX_SMS_LENGTH && IsGermanNumber(phone)
    ensures |message| > MAX_SMS_LENGTH ==> r == Rejected("Message length exceeds limit.")
    ensures |message| <= MAX_SMS_LENGTH && !IsGermanNumber(phone) ==>
      r == Rejected("Invalid phone number format.")
    ensures r.Accepted? ==> r.request == SmsRequest(phone, message, sender)
  {
    if |message| > MAX_SMS_LENGTH then Rejected("Message length exceeds limit.")
    else if !IsDigits(phone) || !StartsWith(phone, COUNTRY_CODE) then Rejected("Invalid phone number format.")
    else Accepted(SmsRequest(phone, message, sender))
  }

  /** One '+' is accepted by register_number and sent without it. */
  lemma OnePlusAccepted(digits: string, teamName: string)
    requires IsGermanNumber(digits)
    ensures RegisterNumber("+" + digits, teamName) == Accepted(RegisterRequest(digits, teamName))
  {
    assert ("+" + digits)[1..] == digits;
  }

  /** Two '+' are not: the second one is left in the number, which is then not all digits. */
  lemma TwoPlusesRejected(digits: string, teamName: string)
    ensures RegisterNumber("++" + digits, teamName) == Rejected("Invalid phone number format.")
  {
    assert ("++" + digits)[1..][0] == '+';
  }

  /** send_sms strips nothing: a '+' in front of a valid number is refused. */
  lemma PlusRefusedBySendSms(digits: string, message: string, sender: string)
    requires |message| <= MAX_SMS_LENGTH
    ensures SendSms("+" + digits, message, sender) == Rejected("Invalid phone number format.")
  {
    assert ("+" + digits)[0] == '+';
  }

  /** Neither check strips whitespace: a leading blank is refused by both. */
  lemma LeadingBlankRefused(digits: string, message: string, sender: string, teamName: string)
    requires |message| <= MAX_SMS_LENGTH
    ensures RegisterNumber(" " + digits, teamName) == Rejected("Invalid phone number format.")
    ensures SendSms(" " + digits, message, sender) == Rejected("Invalid phone number format.")
  {
    assert (" " + digits)[0] == ' ';
    assert !StartsWith(" " + digits, "+");
  }
}
