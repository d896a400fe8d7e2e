# AquaMind hydration reminders — a Dafny model

AquaMind registers users by SMS and computes a daily water target for each user. It
then sends reminders of the form "{quote} Don't forget to drink {portion}l." through a
team SMS gateway and records the "done" and "skip" replies. At the end of the day it
sends a summary. The repository holds several near-duplicate versions of each script,
and they disagree with each other: one counts a reminder when the user replies,
another when it is sent; some check the phone number before the message length,
others the reverse. Each Dafny module below models one script as that script is
written, except for what "## Left out" lists:

| module | script | form |
|---|---|---|
| `ScheduleManagement` | schedule_management.py | reminder guard and summary as functions; `handle_user_response` as a method updating a `UserStore` in place |
| `SchedulerV3` | scheduler_V3.py | `send_reminder` and the startup reset as methods on a `UserStore`; a loop building the job list |
| `SmsServiceV3`, `SmsServiceV4ElenaIntake` | sms_service_V3.py, sms_service_V4_Elena_intake.py | `send_sms` checks as a function; `process_user_response` as a method |
| `UserManagement` | user_management.py | a `UserFile` class holding the username-keyed map |
| `WaterIntake`, `WaterIntakeV3` | water_intake.py, water_intake_V3.py | target formulas as functions; `register_user` as a method appending to the file |
| `MainFlow` | main.py | `parse_data` as a function; an in-place sort of the message array; a set-collecting loop |
| `SmsService`, `Testfile` | sms_service.py, testfile.py | the checks made before a gateway request |
| `RetrievePhoneNumbers` | retrieve_phone_numbers.py | the extraction loop, proved against a recursive specification |

Shared modules:

- `UserRecords` holds the record of the `{"users": [...]}` files, the quote provider's reply, `round(x, 2)` and the first-match lookups written as `next(...)`.
- `PyText` holds ASCII models of the Python string methods the scripts use.
- `Gateway` holds the request bodies and the country-code test.
- `JsonValues` holds decoded JSON.
- `Wrappers` holds `Option` and `Result`.

The external services are inputs, not code:

- The quote provider is a parameter `quotes: int -> Quote`. It is called with the `max_length` the script passes: 100 in schedule_management.py, 150 in scheduler_V3.py.
- The gateway's reply to a sent SMS is a parameter `reply`.
- The pregnancy prompt's answer is a parameter `pregnancyAnswer`.
- Python's `str()` of a decoded JSON value is a parameter `str`.
- A check that passes yields the request body the script would send (`Accepted(request)`). The HTTP exchange itself is not modelled.

A JSON key that a script reads with `.get(key, default)` and that is absent is represented by the default. For example, a record without `reminders_sent` has `remindersSent == 0`.

The two reminder scripts count differently. scheduler_V3.py counts each reminder as it is sent (scheduler_V3.py:57). schedule_management.py counts nothing in `send_reminder` (lines 12-61); only a reply increments `reminders_sent` (line 105). `ScheduleManagement.SendReminder` is therefore a function of the store, and `RepliesAreNotCapped` shows the consequence.

## Model

| member | source | states |
|---|---|---|
| PyText.IsSpace | sms_service.py:31 | a whitespace character, as strip() and split() see it, is never a digit, a letter, '+' or '.' |
| PyText.IsDigits | main.py:79 | a string that passes `isdigit()` is non-empty and holds no whitespace, '.' or '+' (also sms_service.py:74) |
| PyText.IsAlphas | sms_service.py:32 | a string that passes `isalpha()` is non-empty and holds no whitespace |
| PyText.StartsWith | sms_service.py:77 | `startswith(p)` holds exactly when the string is p followed by the rest of the string |
| PyText.Lower | water_intake_V3.py:14 | `str.lower` keeps the length and maps each character to its lower-case form, so no upper-case letter remains |
| PyText.LowerWordClean | schedule_management.py:85 | a word of lower-case letters survives strip() and lower() unchanged |
| PyText.LowerIdempotent | water_intake_V3.py:14 | lower-casing twice is lower-casing once |
| PyText.Strip | sms_service.py:31 | `str.strip` never lengthens; the result neither starts nor ends with whitespace; a string without whitespace is returned unchanged |
| PyText.LStrip | sms_service_V3.py:52 | `lstrip("+")` removes exactly the leading run of '+' and leaves a string not starting with '+' |
| PyText.RemoveFirst | main.py:79 | `replace('.', '', 1)` removes exactly the first '.' when one occurs (the characters before it and after it are kept, in order) and otherwise changes nothing |
| PyText.Split | main.py:74 | every token of `str.split()` is non-empty and free of whitespace |
| PyText.SplitCons | main.py:74 | a word, one whitespace character and a rest split into the word followed by the rest's tokens |
| PyText.SplitWord | main.py:74 | a single whitespace-free word splits into itself |
| PyText.DigitsValue | main.py:82 | `int()` of n digits is below 10^n |
| PyText.DecimalValue | main.py:83 | `float()` of digits with at most one '.' is non-negative |
| PyText.DecimalWithFraction | main.py:79-83 | a weight written as digits, '.', digits passes the one-'.' check and is read as the whole part plus the fraction digits over ten to their count |
| PyText.DecimalExample | main.py:83 | "70.5" is read as 70.5 |
| Gateway.IsGermanNumber | sms_service.py:149 | an accepted number starts with "4" and "9" and holds no whitespace and no '+' |
| UserRecords.Motivation | schedule_management.py:44-46 | the reminder text starts with the quote, or with "Stay hydrated! Health is wealth." when the provider returned an error dict |
| UserRecords.Round2 | schedule_management.py:41 | `round(x, 2)` is a whole number of hundredths within 0.005 of x |
| UserRecords.Portion | schedule_management.py:41 | `round(daily_target / 3, 2)` is a whole number of hundredths within 0.005 of a third of the target (also schedule_management.py:92 and scheduler_V3.py:37) |
| UserRecords.UserIndex | schedule_management.py:22 | the lookup finds the first record with that username, and finds none exactly when no record has it |
| UserRecords.PhoneIndex | sms_service_V3.py:82 | the lookup finds the first record with exactly that phone number, and none exactly when no record has it |
| UserRecords.LoadUsers | sms_service_V3.py:24-28 | a missing users file reads as an empty users list; a file that is not valid JSON, and only such a file, makes the load raise JSONDecodeError, which is not caught (sms_service_V4_Elena_intake.py:25-29 does the same) |
| ScheduleManagement.SendReminder | schedule_management.py:12-61 | send_sms is called iff the user exists, has fewer than 3 reminders counted and a positive target; it goes to the user's number and carries the quote or fallback plus round(target/3, 2); the store is only read |
| ScheduleManagement.DefaultNumberRefused | schedule_management.py:54-57 | a record whose phone_number is the default "Unknown Number" passes send_reminder's guards, and the imported send_sms refuses that number for any text (sms_service.py:148-151) |
| ScheduleManagement.CleanReply | schedule_management.py:85 | `strip().lower()` never lengthens the reply, leaves no upper-case letter and no whitespace at either end (also line 95) |
| ScheduleManagement.Replied | schedule_management.py:95-105 | an accepted reply counts one more reminder; "done" adds one portion to water_intake, "skip" leaves it; no other field changes |
| ScheduleManagement.RecordReply | schedule_management.py:79-108 | an unknown user or a trimmed, lower-cased reply other than "done"/"skip" changes nothing; otherwise only the first matching record changes: reminders_sent + 1, and on "done" water_intake + round(target/3, 2), on "skip" unchanged |
| ScheduleManagement.RecordedAt | schedule_management.py:92-105 | an accepted reply updates exactly the first matching record: one more reply counted and, on "done", one portion more water |
| ScheduleManagement.RepliesAreNotCapped | schedule_management.py:85-105 | a reply from a user already at the limit of 3 is still counted, giving 4 |
| ScheduleManagement.DoneIsClean | schedule_management.py:85 | the reply "done" survives strip and lower unchanged |
| ScheduleManagement.PortionOfTwoLitres | schedule_management.py:92 | a 2.0-litre target asks for 0.67 litres per reminder |
| ScheduleManagement.ThreeDoneReplies | schedule_management.py:92-144 | three "done" replies on a 2.0-litre target record 2.01 litres and 3 replies, and the summary is "hit your water goal" |
| ScheduleManagement.UserStore.HandleUserResponse | schedule_management.py:64-116 | the store becomes exactly RecordReply's result (unchanged when nothing is recorded); a follow-up send_reminder runs iff a reply was recorded and the new count is below 3, and it sees the saved store (that send_reminder calls send_sms under its own guards) |
| ScheduleManagement.Percentage | schedule_management.py:136 | the percentage times the target is 100 times the intake |
| ScheduleManagement.DailyStatistics | schedule_management.py:119-151 | as written: below 50% "could drink more", 50% to under 80% "on the right track", 95% and up "hit your goal", each iff; 80% to under 95% has no message; a zero target divides by zero |
| ScheduleManagement.StatisticsGapExample | schedule_management.py:139-150 | a user at 1.7 of 2.0 litres (85%) reaches send_sms with no message |
| ScheduleManagement.DailyStatisticsClosed | schedule_management.py:139-144 | the corrected summary never lacks a message, with the same not-found and zero-target cases |
| ScheduleManagement.ClosedStatisticsAgrees | schedule_management.py:139-144 | the corrected summary equals the written one wherever the latter has a message, and says "on the right track" in the gap |
| ScheduleManagement.ScheduleReminders | schedule_management.py:154-164 | one reminder job every minute per user, in list order |
| SchedulerV3.Eligible | scheduler_V3.py:18-34 | send_reminder's guards pass exactly when the first record with the username has fewer than 3 reminders and a positive target |
| SchedulerV3.AfterReminder | scheduler_V3.py:18-58 | the store after send_reminder: unchanged when a guard fails, otherwise only the first matching record's reminders_sent + 1; records with other usernames never change |
| SchedulerV3.ReminderKeepsLimit | scheduler_V3.py:24-57 | one call keeps every reminders_sent at most 3 when all were at most 3 |
| SchedulerV3.RemindersStayWithinLimit | scheduler_V3.py:24-57 | any sequence of calls keeps every counter that started at most 3 at most 3 |
| SchedulerV3.UserStore.SendReminder | scheduler_V3.py:11-58 | the guards (absent user, limit, target <= 0) return before sending or saving; otherwise the SMS is sent and the counter is incremented and saved whatever the gateway replied |
| SchedulerV3.UserStore.ResetReminders | scheduler_V3.py:73-76 | startup sets every reminders_sent to 0 and leaves every other field and record as it was |
| SchedulerV3.ScheduleReminders | scheduler_V3.py:61-68 | one reminder job per user, in list order |
| SmsServiceV3.SendSms | sms_service_V3.py:52-60 | leading '+' are stripped, not whitespace; a bad number is reported before an over-long message; a request is built iff the number is digits starting with 49 and the message has at most 160 characters |
| SmsServiceV3.LeadingBlankRejected | sms_service_V3.py:52-54 | a number with a leading blank is always refused |
| SmsServiceV3.PlusesStripped | sms_service_V3.py:52-60 | "++49…" is sent as "49…" |
| SmsServiceV3.AfterResponse | sms_service_V3.py:82-89 | "done" in any case, untrimmed, adds exactly daily_target/3, unrounded, to the first matching record's water_intake; every other response, every other record and every other field (reminders_sent included) stay unchanged |
| SmsServiceV3.UserStore.ProcessUserResponse | sms_service_V3.py:72-90 | an unknown number returns the Error dict and saves nothing; a known one saves AfterResponse's store and returns Success for any response |
| SmsServiceV4ElenaIntake.ReadReply | sms_service_V4_Elena_intake.py:55-58 | the response is "done" or "skip" exactly when its lower-case form is |
| SmsServiceV4ElenaIntake.AfterResponse | sms_service_V4_Elena_intake.py:52-60 | "done" adds daily_target/3 to the first matching record; "skip" and unrecognised replies change nothing; other records and fields never change |
| SmsServiceV4ElenaIntake.UserStore.ProcessUserResponse | sms_service_V4_Elena_intake.py:41-61 | an unknown number returns the Error dict without saving; otherwise AfterResponse's store is saved and Success is returned, for unrecognised replies too |
| UserManagement.LoadUserData | user_management.py:9-20 | a missing file reads as the empty map, a stored one as its map; a file that is not valid JSON, and only such a file, raises JSONDecodeError |
| UserManagement.AddUserTo | user_management.py:46-58 | an existing name gives "User already exists." and no save; a new one gets exactly its profile, every other entry is kept, and the map is saved |
| UserManagement.RemoveUserFrom | user_management.py:70-77 | an absent name gives "User not found." and no save; otherwise exactly that key is deleted and the map is saved |
| UserManagement.Lookup | user_management.py:89-93 | the stored profile, or "User not found." |
| UserManagement.AddThenLookup | user_management.py:51-92 | after a successful add the user is found with exactly the given profile |
| UserManagement.RemoveThenLookup | user_management.py:75-93 | after a remove the user is not found |
| UserManagement.AddThenRemove | user_management.py:51-77 | adding a new name and removing it restores the map |
| UserManagement.UserFile.AddUser | user_management.py:32-58 | the file changes exactly as AddUserTo says, and after success get_user_info returns the new profile; an undecodable file raises JSONDecodeError and is left as it was |
| UserManagement.UserFile.RemoveUser | user_management.py:60-77 | the file changes exactly as RemoveUserFrom says, and afterwards get_user_info reports "User not found."; an undecodable file raises JSONDecodeError and is left as it was |
| UserManagement.UserFile.GetUserInfo | user_management.py:79-93 | the stored profile, or "User not found."; an undecodable file raises JSONDecodeError |
| UserManagement.UserFile.ListAllUsers | user_management.py:95-102 | the whole stored map, or the empty map when there is no file; an undecodable file raises JSONDecodeError |
| WaterIntake.Baseline | water_intake.py:5-14 | the baseline lies between 1.9 and 2.5 litres |
| WaterIntake.CalculateDailyIntake | water_intake.py:1-19 | the target is at least the baseline and at least 30 ml per kilogram, and is one of the two |
| WaterIntake.WhichTermWins | water_intake.py:17 | the baseline is chosen when weight*0.03 does not exceed it, weight*0.03 otherwise |
| WaterIntake.AtLeastMinimum | water_intake.py:5-17 | every input gets at least 1.9 litres |
| WaterIntake.OtherGendersAsFemale | water_intake.py:6-14 | any gender string other than exactly "male" gets the female baseline |
| WaterIntake.MonotoneInWeight | water_intake.py:17 | for fixed age and gender the target never decreases with weight |
| WaterIntake.ExampleTargets | water_intake.py:5-17 | a 25-year-old woman of 60 kg gets 2.0 litres; a 30-year-old man of 100 kg gets 3.0 |
| WaterIntakeV3.CalculateWaterIntake | water_intake_V3.py:4-28 | under 18: weight*0.04; adult man 3.7; adult woman 3.0 if the answer is "yes" (any case), else 2.7; a lower-cased gender other than male/female raises ValueError, and only then |
| WaterIntakeV3.GenderCaseInsensitive | water_intake_V3.py:14-19 | the gender's case does not change the result |
| WaterIntakeV3.AnswerOnlyForAdultWomen | water_intake_V3.py:19-24 | the pregnancy answer matters only for a woman of 18 or more |
| WaterIntakeV3.PositiveTarget | water_intake_V3.py:14-24 | a positive weight gives a positive target |
| WaterIntakeV3.ValidateRegistration | water_intake_V3.py:43-48 | the checks pass iff the gender is exactly "male"/"female", 0 < age < 150 and weight > 0; the first failing check, in that order, gives its message |
| WaterIntakeV3.ValidInputsGetTarget | water_intake_V3.py:43-50 | inputs that pass the checks always get a positive target |
| WaterIntakeV3.Appended | water_intake_V3.py:55-66 | earlier records are kept and the new one comes last, with id len(users)+1 and water_intake 0.0 |
| WaterIntakeV3.DuplicatesKept | water_intake_V3.py:52-66 | registering the same name and number twice leaves two records, with consecutive ids |
| WaterIntakeV3.UsersFile.RegisterUser | water_intake_V3.py:31-76 | a failed check returns its message and does not touch the file; a missing, undecodable or "users"-less file is reported and left alone; otherwise the record is appended in place and the welcome carries the positive target |
| MainFlow.ParseData | main.py:70-88 | a message that does not split into exactly 4 tokens, a non-digit age, a weight that is not digits after removing one '.', or a gender other than male/female in any case each give their ValueError message, checked in that order; otherwise the result is (username, int age, float weight, lower-cased gender); the phone number is not used |
| MainFlow.ParsedFieldsWellFormed | main.py:74-86 | an accepted username is non-empty and has no whitespace, and the gender is exactly "male" or "female" |
| MainFlow.WholeDecimal | main.py:79-83 | a whole number passes the weight check unchanged, and float() reads it as that number |
| MainFlow.SplitFour | main.py:74-78 | four whitespace-free words joined by blanks split back into those words |
| MainFlow.ParseFormatted | main.py:70-88 | a message in the prompted format "john_doe 30 70 male" is read back as the values it was written from |
| MainFlow.GroupIndex | main.py:26-27 | the first group holding the number is used, and none exactly when no group holds it |
| MainFlow.SortedHeadIsNewest | main.py:29-30 | the head of a list sorted newest first is an original message, and no original message is newer |
| MainFlow.SortNewestFirst | main.py:29 | the list is sorted by receivedAt descending in place and holds the same messages |
| MainFlow.GetLastMessage | main.py:25-32 | no group with the number gives None; otherwise that group's list is left sorted newest first, in place, and the text of its newest message is returned (an empty list raises IndexError) |
| MainFlow.GetAllNumbers | main.py:11-16 | every phone key of every group appears exactly once; the "491736536574" guard excludes nothing |
| SmsService.AddNewTeam | sms_service.py:31-37 | the stripped name must be non-empty and all letters, otherwise "Invalid team name."; the request carries the stripped name |
| SmsService.InnerBlankRefused | sms_service.py:31-34 | a two-word name is refused |
| SmsService.Normalise | sms_service.py:71 | normalising never lengthens the number and leaves no leading '+' |
| SmsService.RegisterNumber | sms_service.py:71-82 | after strip and lstrip('+'), non-digits are refused before a missing 49 prefix, each with its own description; otherwise the request carries the normalised number |
| SmsService.SendSms | sms_service.py:144-154 | more than 160 characters is refused first (exactly 160 passes); then the normalised number must be digits starting with 49 |
| SmsService.AcceptedNumberIsNormal | sms_service.py:71-82 | an accepted number is already normal, and registering it again gives the same request |
| SmsService.NormalisePadded | sms_service.py:71 | " +49… " normalises to "49…" |
| SmsService.PaddedNumberAccepted | sms_service.py:71-154 | both register_number and send_sms accept " +49… " as "49…" |
| Testfile.LoadFromFile | testfile.py:12-17 | a missing file loads as []; an undecodable one raises JSONDecodeError |
| Testfile.DropOnePlus | testfile.py:55-56 | exactly one leading '+' is removed |
| Testfile.RegisterNumber | testfile.py:54-67 | after dropping one '+', non-digits are refused before a missing 49 prefix; whitespace is not stripped |
| Testfile.SendSms | testfile.py:121-131 | more than 160 characters is refused before the number is looked at; the number must already be digits starting with 49 |
| Testfile.OnePlusAccepted | testfile.py:55-67 | "+49…" registers as "49…" |
| Testfile.TwoPlusesRejected | testfile.py:55-60 | "++49…" is refused as an invalid format |
| Testfile.PlusRefusedBySendSms | testfile.py:126-128 | send_sms refuses "+49…" |
| Testfile.LeadingBlankRefused | testfile.py:54-128 | a leading blank is refused by both register_number and send_sms |
| RetrievePhoneNumbers.Contains | retrieve_phone_numbers.py:23 | `key in item` on a string holds exactly when the key occurs in it at some position |
| RetrievePhoneNumbers.StepFor | retrieve_phone_numbers.py:22-34 | a dict holding the key yields str(value) trimmed; a dict without it is skipped; an item whose membership test or lookup raises ends the loop |
| RetrievePhoneNumbers.Extracted | retrieve_phone_numbers.py:22-27 | the output is never longer than the input |
| RetrievePhoneNumbers.ExtractedAppend | retrieve_phone_numbers.py:22-25 | the output follows the input order: the extraction of a concatenation is the concatenation of the extractions |
| RetrievePhoneNumbers.AllKeyedExtracted | retrieve_phone_numbers.py:22-25 | when every item is a dict with the key, entry i is item i's value as a string, trimmed |
| RetrievePhoneNumbers.UnkeyedSkipped | retrieve_phone_numbers.py:23-27 | dicts without the key contribute nothing |
| RetrievePhoneNumbers.FetchPhoneNumbersFromJson | retrieve_phone_numbers.py:4-36 | a missing, undecodable or non-iterable file gives []; otherwise the loop returns exactly the extraction (the numbers gathered before any error), never longer than the input |

## Findings

| source | as written | input that shows it | evidently intended | confidence | as-written member | corrected member |
|---|---|---|---|---|---|---|
| schedule_management.py:139-150 | the three branches cover below 50%, 50% to under 80%, and 95% and up; from 80% to under 95% `message` is never assigned and `send_sms(phone_number, message)` raises UnboundLocalError | a user with daily_target 2.0 and water_intake 1.7 (85%) | every percentage gets a summary; the gap is given the "on the right track" text | not executed | ScheduleManagement.StatisticsGapExample | ScheduleManagement.DailyStatisticsClosed |

## Left out

- All HTTP traffic is left out: status codes, Content-Type branches, decoding of responses, and `save_to_file` of raw responses. So are `get_messages`, and `add_new_team` in testfile.py, which has no checks. A request that passes the checks ends the model; the gateway's reply is an input.
- The quote provider (fetch_data.py, fetch_data_V3.py, quote_management.py), with its network calls, random choice and retry loop, is not part of this model; its reply is a parameter.
- Message wording with formatted numbers is reduced to its parts. The reminder, welcome and summary texts embed `{x}` and `{x:.2f}`; the model keeps the quote, the litres and the tier, not the formatted string.
- Numbers are exact reals and unbounded integers, not IEEE doubles.
- UserRecords.Round2: rounds the exact real half to even. Python rounds the binary double, which can differ at ties that are not exactly representable.
- Python's `str.isdigit`, `isalpha`, `isspace` and `lower` are ASCII-only here; Unicode digits, letters, whitespace and case mappings are not modelled. `int()`/`float()` are modelled on such digit strings only.
- Python's `str()` of a JSON value (the repr of numbers, lists and dicts) is a parameter of RetrievePhoneNumbers.
- RetrievePhoneNumbers.FetchPhoneNumbersFromJson: the file is given as the sequence of items `for item in data` visits. For a list document these are its elements; the key order of a top-level JSON object is not modelled.
- Files are whole values that a method reads and replaces. The `r+` open without truncation in register_user (water_intake_V3.py:53-68) and partial writes are not modelled.
- Interactive menus, `input()` prompts and `print` output are left out. The pregnancy prompt is a string parameter that is compared lower-cased.
- The `schedule` library and time-based loops are left out: `schedule.every` and `run_pending` become a returned list of jobs, and the `while True` driver is not modelled. So are `fetch_user_response` polling, `subscribe_reminders`, `send_sms_real`, `handle_incoming_message`, `send_get_data_sms` and `main()` in main.py.
- `schedule_daily_statistics_reminders` is left out; it passes keyword arguments that `send_daily_statistics` does not accept.
- Schema mismatches between files are not reconciled; each file is modelled against its own view of the data:
  - the `users` list versus the username-keyed map of user_management.py;
  - `phone_number` versus `phoneNumber`;
  - scheduler_V3.py importing `load_user_data`/`save_user_data` from sms_service.py, which does not define them. The model gives scheduler_V3.py the `{"users": [...]}` store.
- Absent keys are left out. A record that lacks a key read with `[...]` would raise KeyError; the record type always carries every key, with a key read by `.get` holding its default (`"Unknown Number"` for a phone number).
- The catch-all `except Exception` paths are left out, apart from two that are modelled: the KeyError of a users file without "users" in register_user (`WaterIntakeV3.UsersFile.RegisterUser`), and the error that ends the loop of retrieve_phone_numbers.py:35-36 (`RetrievePhoneNumbers.StepFor`'s `Stop`, and `FetchPhoneNumbersFromJson`'s non-iterable file).
- MainFlow.SortNewestFirst, MainFlow.GetLastMessage: the sort is proved sorted and a permutation, but not stable; Python's sort keeps equal-timestamp messages in their original order, so `get_last_message` returns the earliest-listed of the newest messages; the model promises only one of the newest.
- MainFlow.Message: the gateway's receivedAt value is abstracted as an integer key compared numerically; a timestamp string that Python compares character by character is not modelled.
- MainFlow.GetAllNumbers: the order of `list(set)` is unspecified in Python and is not modelled; only membership and uniqueness are stated.
