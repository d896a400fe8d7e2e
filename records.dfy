/** What the reminder scripts share: the user record of the {"users": [...]} JSON file,
    the replies of the two external services (quote provider, SMS gateway), Python's
    round(x, 2), and the first-match lookups the scripts write as next(generator). */
module UserRecords {
  import opened Wrappers

  /** One entry of the "users" list. A key that a script reads with
      user.get(key, default) and that is absent is represented by that default. */
  datatype User = User(
    id: int,
    username: string,
    phoneNumber: string,
    gender: string,
    age: int,
    weight: real,
    dailyTarget: real,
    waterIntake: real,
    remindersSent: int)

  /** The quote provider's reply: a quote, or the error dict it returns on a failed request. */
  datatype Quote = QuoteText(text: string) | QuoteError

  /** The text used when the quote provider reports an error. */
  const FALLBACK_QUOTE: string := "Stay hydrated! Health is wealth."

  /** The motivational line of a reminder: the quote, or the fixed fallback on a provider error. */
  function Motivation(q: Quote): (m: string)
    ensures q.QuoteText? ==> m == q.text
    ensures q.QuoteError? ==> m == FALLBACK_QUOTE
  {
    match q
    case QuoteText(t) => t
    case QuoteError => FALLBACK_QUOTE
  }

  /** Python's round(x, 2) on an exact real: the nearest hundredth, ties to the even hundredth. */
  function Round2(x: real): (r: real)
    ensures (r * 100.0).Floor as real == r * 100.0
    ensures -0.005 <= r - x <= 0.005
  {
    var y := x * 100.0;
    var f := y.Floor;
    var frac := y - f as real;
    var n := if frac < 0.5 then f
             else if frac > 0.5 then f + 1
             else if f % 2 == 0 then f else f + 1;
    n as real / 100.0
  }

  /** water_per_notification = round(daily_target / NOTIFICATION_LIMIT, 2), the share of
      the daily target one reminder asks for; both reminder scripts set NOTIFICATION_LIMIT
      to 3. */
  function Portion(dailyTarget: real): (p: real)
    ensures (p * 100.0).Floor as real == p * 100.0
    ensures -0.005 <= p - dailyTarget / 3.0 <= 0.005
  {
    Round2(dailyTarget / 3.0)
  }

  /** next((u for u in s if p(u)), None): the position of the first element satisfying p. */
  function FirstIndex<T>(s: seq<T>, p: T -> bool): (r: Option<nat>)
    ensures r.Some? ==> r.value < |s| && p(s[r.value])
    ensures r.Some? ==> forall j :: 0 <= j < r.value ==> !p(s[j])
    ensures r.None? ==> forall j :: 0 <= j < |s| ==> !p(s[j])
  {
    if s == [] then None
    else if p(s[0]) then Some(0)
    else match FirstIndex(s[1..], p)
      case None => None
      case Some(k) => Some(k + 1)
  }

  /** The first user whose username is `name`. */
  function UserIndex(users: seq<User>, name: string): (r: Option<nat>)
    ensures r.Some? ==> r.value < |users| && users[r.value].username == name
    ensures r.Some? ==> forall j :: 0 <= j < r.value ==> users[j].username != name
    ensures r.None? ==> forall j :: 0 <= j < |users| ==> users[j].username != name
  {
    FirstIndex(users, (u: User) => u.username == name)
  }

  /** The first user whose phone_number is exactly `phone`. */
  function PhoneIndex(users: seq<User>, phone: string): (r: Option<nat>)
    ensures r.Some? ==> r.value < |users| && users[r.value].phoneNumber == phone
    ensures r.Some? ==> forall j :: 0 <= j < r.value ==> users[j].phoneNumber != phone
    ensures r.None? ==> forall j :: 0 <= j < |users| ==> users[j].phoneNumber != phone
  {
    FirstIndex(users, (u: User) => u.phoneNumber == phone)
  }

  /** The stored users file: absent, present but not valid JSON, or holding its
      "users" list. */
  datatype SavedUsers = Missing | Undecodable | Stored(users: seq<User>)

  /** load_user_data in the {"users": [...]} scripts: a missing file (FileNotFoundError,
      caught) reads as an empty list; a file that is not valid JSON makes json.load raise
      JSONDecodeError, which is not caught. */
  function LoadUsers(f: SavedUsers): (r: Result<seq<User>, string>)
    ensures f.Missing? ==> r == Success([])
    ensures r.Failure? <==> f.Undecodable?
    ensures r.Failure? ==> r.error == "JSONDecodeError"
    ensures f.Stored? ==> r == Success(f.users)
  {
    match f
    case Missing => Success([])
    case Undecodable => Failure("JSONDecodeError")
    case Stored(us) => Success(us)
  }
}
