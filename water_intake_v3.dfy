/** water_intake_V3.py: the age/gender/pregnancy target and register_user, which
    validates its inputs and appends a record to users.json in place. */
module WaterIntakeV3 {
  import opened Wrappers
  import opened PyText
  import opened UserRecords

  /** calculate_water_intake. The gender is compared lower-cased: for a man, 40 ml per
      kilogram under 18 and 3.7 litres from 18 on; for a woman, 40 ml per kilogram under
      18, and from 18 on 3.0 litres when the answer to the pregnancy prompt (lower-cased)
      is "yes" and 2.7 otherwise; any other gender raises ValueError. The prompt's answer
      is the parameter `pregnancyAnswer`; only an adult woman is asked. */
  function CalculateWaterIntake(age: int, gender: string, weight: real, pregnancyAnswer: string)
    : (r: Result<real, string>)
    ensures r.Failure? <==> Lower(gender) != "male" && Lower(gender) != "female"
    ensures r.Failure? ==> r.error == "Invalid gender. Please specify 'male' or 'female'."
    ensures r.Success? && age < 18 ==> r.value == weight * 0.04
    ensures r.Success? && age >= 18 && Lower(gender) == "male" ==> r.value == 3.7
    ensures r.Success? && age >= 18 && Lower(gender) == "female" ==>
      r.value == (if Lower(pregnancyAnswer) == "yes" then 3.0 else 2.7)
  {
    if Lower(gender) == "male" then
      if age < 18 then Success(weight * 0.04) else Success(3.7)
    else if Lower(gender) == "female" then
      if age < 18 then Success(weight * 0.04)
      else Success(if Lower(pregnancyAnswer) == "yes" then 3.0 else 2.7)
    else Failure("Invalid gender. Please specify 'male' or 'female'.")
  }

  /** The gender's case does not matter. */
  lemma GenderCaseInsensitive(age: int, gender: string, weight: real, answer: string)
    ensures CalculateWaterIntake(age, gender, weight, answer) == CalculateWaterIntake(age, Lower(gender), weight, answer)
  {
    LowerIdempotent(gender);
  }

  /** The pregnancy answer changes the target of an adult woman only. */
  lemma AnswerOnlyForAdultWomen(age: int, gender: string, weight: real, a1: string, a2: string)
    requires age < 18 || Lower(gender) != "female"
    ensures CalculateWaterIntake(age, gender, weight, a1) == CalculateWaterIntake(age, gender, weight, a2)
  {
  }

  /** A positive weight always gives a positive target. */
  lemma PositiveTarget(age: int, gender: string, weight: real, answer: string)
    requires weight > 0.0
    ensures var r := CalculateWaterIntake(age, gender, weight, answer);
      r.Success? ==> r.value > 0.0
  {
  }

  /** register_user's input checks, in order: the gender must be exactly "male" or
      "female", then 0 < age < 150, then weight > 0. None means all three pass. */
  function ValidateRegistration(gender: string, age: int, weight: real): (r: Option<string>)
    ensures r.None? <==> (gender == "male" || gender == "female") && 0 < age < 150 && weight > 0.0
    ensures gender != "male" && gender != "female" ==>
      r == Some("Invalid gender. Please enter 'male' or 'female'.")
    ensures (gender == "male" || gender == "female") && !(0 < age < 150) ==>
      r == Some("Invalid age. Please enter a valid age.")
    ensures (gender == "male" || gender == "female") && 0 < age < 150 && weight <= 0.0 ==>
      r == Some("Invalid weight. Please enter a positive weight.")
  {
    if gender != "male" && gender != "female" then Some("Invalid gender. Please enter 'male' or 'female'.")
    else if !(0 < age < 150) then Some("Invalid age. Please enter a valid age.")
    else if weight <= 0.0 then Some("Invalid weight. Please enter a positive weight.")
    else None
  }

  /** Inputs that pass the checks always get a positive target (the exact genders pass
      calculate_water_intake's own gender check). */
  lemma ValidInputsGetTarget(gender: string, age: int, weight: real, answer: string)
    requires ValidateRegistration(gender, age, weight).None?
    ensures var r := CalculateWaterIntake(age, gender, weight, answer);
      r.Success? && r.value > 0.0
  {
    assert Lower(gender) == gender;
  }

  /** The list after the new record is appended: everything before is kept, the new
      record comes last with id len(users) + 1, water_intake 0.0 and (the key being
      absent) no reminders sent. */
  function Appended(users: seq<User>, username: string, phone: string, gender: string,
                    age: int, weight: real, target: real): (r: seq<User>)
    ensures |r| == |users| + 1 && r[..|users|] == users
    ensures r[|users|] == User(|users| + 1, username, phone, gender, age, weight, target, 0.0, 0)
  {
    users + [User(|users| + 1, username, phone, gender, age, weight, target, 0.0, 0)]
  }

  /** Nothing stops a name or a number from being registered twice: both records stay. */
  lemma DuplicatesKept(users: seq<User>, username: string, phone: string, gender: string,
                       age: int, weight: real, target: real)
    ensures var twice := Appended(Appended(users, username, phone, gender, age, weight, target),
                                  username, phone, gender, age, weight, target);
      && twice[|users|].username == twice[|users| + 1].username == username
      && twice[|users|].phoneNumber == twice[|users| + 1].phoneNumber == phone
      && twice[|users|].id + 1 == twice[|users| + 1].id
  {
  }

  /** users.json as register_user finds it. */
  datatype UsersJson = FileMissing | Undecodable | NoUsersKey | Decoded(users: seq<User>)

  /** register_user's reply; the welcome line carries the name and the target. */
  datatype Registration = Invalid(message: string) | Welcome(username: string, dailyTarget: real)
    | FileError(message: string)

  /** The users.json file register_user opens for update. */
  class UsersFile {
    var file: UsersJson

    constructor (file: UsersJson)
      ensures this.file == file
    {
      this.file := file;
    }

    /** register_user: a failed check answers with its message and does not touch the
        file; otherwise the target is computed, and a decodable file with a "users" list
        gets the new record appended in place; a missing, undecodable or keyless file
        is reported and left as it was. */
    method RegisterUser(username: string, phone: string, gender: string, age: int, weight: real,
                        pregnancyAnswer: string) returns (r: Registration)
      modifies this
      ensures ValidateRegistration(gender, age, weight).Some? ==>
        r == Invalid(ValidateRegistration(gender, age, weight).value) && file == old(file)
      ensures ValidateRegistration(gender, age, weight).None? && !old(file).Decoded? ==> file == old(file)
      ensures ValidateRegistration(gender, age, weight).None? && old(file).FileMissing? ==>
        r == FileError("Error: 'users.json' file not found.")
      ensures ValidateRegistration(gender, age, weight).None? && old(file).Undecodable? ==>
        r == FileError("Error: Failed to decode 'users.json'.")
      ensures ValidateRegistration(gender, age, weight).None? && old(file).NoUsersKey? ==>
        r == FileError("Unexpected error: 'users'")
      ensures ValidateRegistration(gender, age, weight).None? && old(file).Decoded? ==>
        var target := CalculateWaterIntake(age, gender, weight, pregnancyAnswer);
        && target.Success? && r == Welcome(username, target.value) && target.value > 0.0
        && file == Decoded(Appended(old(file).users, username, phone, gender, age, weight, target.value))
    {
      var invalid := ValidateRegistration(gender, age, weight);
      if invalid.Some? {
        return Invalid(invalid.value);
      }
      var computed := CalculateWaterIntake(age, gender, weight, pregnancyAnswer);
      ValidInputsGetTarget(gender, age, weight, pregnancyAnswer);
      var dailyTarget := computed.value;
      match file {
        case FileMissing =>
          r := FileError("Error: 'users.json' file not found.");
        case Undecodable =>
          r := FileError("Error: Failed to decode 'users.json'.");
        case NoUsersKey =>
          r := FileError("Unexpected error: 'users'");
        case Decoded(users) =>
          var userId := |users| + 1;
          var newUser := User(userId, username, phone, gender, age, weight, dailyTarget, 0.0, 0);
          file := Decoded(users + [newUser]);
          r := Welcome(username, dailyTarget);
      }
    }
  }
}
