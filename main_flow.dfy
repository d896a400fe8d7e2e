/** main.py: parse_data (the registration text a user sends), get_last_message (which
    sorts the first matching message list in place) and get_all_numbers. */
module MainFlow {
  import opened Wrappers
  import opened PyText
  import opened UserRecords

  /** What parse_data returns: username, int age, float weight, lower-cased gender. */
  datatype Registration = Registration(username: string, age: nat, weight: real, gender: string)

  /** parse_data: split on whitespace into exactly four tokens; the age must be all
      digits and the weight all digits once one '.' is removed; the gender, lower-cased,
      must be "male" or "female". Each ValueError is a Failure with its message. The
      phone number is not used. */
  function ParseData(phone: string, message: string): (r: Result<Registration, string>)
    ensures |Split(message)| != 4 ==> r == Failure("Incorrect input format.")
    ensures |Split(message)| == 4 ==>
      var t := Split(message);
      && (!IsDigits(t[1]) || !IsDigits(RemoveFirst(t[2], '.')) ==>
            r == Failure("Age must be an integer and weight a float."))
      && (IsDigits(t[1]) && IsDigits(RemoveFirst(t[2], '.')) && Lower(t[3]) != "male" && Lower(t[3]) != "female" ==>
            r == Failure("Gender must be 'male' or 'female'."))
      && (r.Success? <==> IsDigits(t[1]) && IsDigits(RemoveFirst(t[2], '.')) && (Lower(t[3]) == "male" || Lower(t[3]) == "female"))
      && (r.Success? ==> r.value == Registration(t[0], DigitsValue(t[1]), DecimalValue(t[2]), Lower(t[3])))
  {
    var userDetails := Split(message);
    if |userDetails| != 4 then Failure("Incorrect input format.")
    else
      var username, age, weight, gender := userDetails[0], userDetails[1], userDetails[2], userDetails[3];
      if !IsDigits(age) || !IsDigits(RemoveFirst(weight, '.')) then
        Failure("Age must be an integer and weight a float.")
      else if Lower(gender) != "male" && Lower(gender) != "female" then
        Failure("Gender must be 'male' or 'female'.")
      else Success(Registration(username, DigitsValue(age), DecimalValue(weight), Lower(gender)))
  }

  /** An accepted registration has a non-empty username without whitespace and a
      gender that is exactly "male" or "female". */
  lemma ParsedFieldsWellFormed(phone: string, message: string)
    requires ParseData(phone, message).Success?
    ensures var reg := ParseData(phone, message).value;
      && reg.username != [] && NoSpace(reg.username)
      && (reg.gender == "male" || reg.gender == "female")
  {
  }

  /** A whole number contains no '.', so float() reads it as that number. */
  lemma WholeDecimal(s: string)
    requires IsDigits(s)
    ensures RemoveFirst(s, '.') == s
    ensures DecimalValue(s) == DigitsValue(s) as real
  {
    assert '.' !in s by {
      forall i | 0 <= i < |s| ensures s[i] != '.' {
        assert IsDigit(s[i]);
      }
    }
  }

  /** A word, a blank, and the rest split into the word followed by the rest's words. */
  lemma SplitBlank(w: string, rest: string)
    requires w != [] && NoSpace(w)
    ensures Split(w + " " + rest) == [w] + Split(rest)
  {
    assert w + " " + rest == w + [' '] + rest;
    SplitCons(w, ' ', rest);
  }

  /** Four whitespace-free words joined by single blanks split back into those words. */
  lemma {:induction false} SplitFour(w1: string, w2: string, w3: string, w4: string)
    requires w1 != [] && w2 != [] && w3 != [] && w4 != []
    requires NoSpace(w1) && NoSpace(w2) && NoSpace(w3) && NoSpace(w4)
    ensures Split(w1 + " " + (w2 + " " + (w3 + " " + w4))) == [w1] + ([w2] + ([w3] + [w4]))
  {
    var s3 := w3 + " " + w4;
    var s2 := w2 + " " + s3;
    SplitWord(w4);
    SplitBlank(w3, w4);
    SplitBlank(w2, s3);
    SplitBlank(w1, s2);
  }

  /** The format the registration prompt asks for ("john_doe 30 70 male", any case for
      the gender) is read back as the four values it was written from. */
  lemma {:induction false} ParseFormatted(phone: string, username: string, age: string, weight: string, gender: string)
    requires username != [] && NoSpace(username)
    requires IsDigits(age) && IsDigits(weight)
    requires NoSpace(gender) && (Lower(gender) == "male" || Lower(gender) == "female")
    ensures ParseData(phone, username + " " + (age + " " + (weight + " " + gender)))
         == Success(Registration(username, DigitsValue(age), DigitsValue(weight) as real, Lower(gender)))
  {
    assert NoSpace(age) by {
      forall i | 0 <= i < |age| ensures !IsSpace(age[i]) { assert IsDigit(age[i]); }
    }
    assert NoSpace(weight) by {
      forall i | 0 <= i < |weight| ensures !IsSpace(weight[i]) { assert IsDigit(weight[i]); }
    }
    assert |gender| == |Lower(gender)|;
    SplitFour(username, age, weight, gender);
    var t := Split(username + " " + (age + " " + (weight + " " + gender)));
    assert t[0] == username && t[1] == age && t[2] == weight && t[3] == gender;
    WholeDecimal(weight);
  }

  /** One message of a group: its receivedAt stamp and its text. */
  datatype Message = Message(receivedAt: int, text: string)

  /** One entry of the gateway's message list: phone number to that number's messages
      (a list the script sorts in place). */
  type Group = map<string, array<Message>>

  /** The first group that has the phone number as a key. */
  function GroupIndex(response: seq<Group>, phone: string): (r: Option<nat>)
    ensures r.Some? ==> r.value < |response| && phone in response[r.value]
    ensures r.Some? ==> forall j :: 0 <= j < r.value ==> phone !in response[j]
    ensures r.None? ==> forall j :: 0 <= j < |response| ==> phone !in response[j]
  {
    FirstIndex(response, (g: Group) => phone in g)
  }

  /** The message list get_last_message may reorder: the first matching group's, if any. */
  function ListToSort(response: seq<Group>, phone: string): set<array<Message>>
  {
    match GroupIndex(response, phone)
    case None => {}
    case Some(i) => {response[i][phone]}
  }

  /** Newest first. */
  predicate SortedDesc(s: seq<Message>)
  {
    forall i, j :: 0 <= i < j < |s| ==> s[i].receivedAt >= s[j].receivedAt
  }

  /** The head of a list sorted newest first is one of the original messages, and no
      original message is newer. */
  lemma SortedHeadIsNewest(sorted: seq<Message>, original: seq<Message>)
    requires SortedDesc(sorted) && multiset(sorted) == multiset(original) && |sorted| > 0
    ensures sorted[0] in original
    ensures forall m :: m in original ==> m.receivedAt <= sorted[0].receivedAt
  {
    assert sorted[0] in multiset(original);
    forall m | m in original
      ensures m.receivedAt <= sorted[0].receivedAt
    {
      assert m in multiset(sorted);
      var k :| 0 <= k < |sorted| && sorted[k] == m;
    }
  }

  /** Exchanges two messages of the list. */
  method Swap(a: array<Message>, i: int, j: int)
    requires 0 <= i < a.Length && 0 <= j < a.Length
    modifies a
    ensures a[..] == old(a[..])[i := old(a[j])][j := old(a[i])]
    ensures multiset(a[..]) == multiset(old(a[..]))
  {
    a[i], a[j] := a[j], a[i];
  }

  /** messages.sort(key=receivedAt, reverse=True), in place: the list ends newest first
      and holds the same messages. */
  method SortNewestFirst(a: array<Message>)
    modifies a
    ensures SortedDesc(a[..])
    ensures multiset(a[..]) == multiset(old(a[..]))
  {
    var i := 0;
    while i < a.Length
      invariant 0 <= i <= a.Length
      invariant forall p, q :: 0 <= p < q < i ==> a[p].receivedAt >= a[q].receivedAt
      invariant multiset(a[..]) == multiset(old(a[..]))
    {
      var j := i;
      while j > 0 && a[j - 1].receivedAt < a[j].receivedAt
        invariant 0 <= j <= i
        invariant forall p, q :: 0 <= p < q <= i && q != j ==> a[p].receivedAt >= a[q].receivedAt
        invariant multiset(a[..]) == multiset(old(a[..]))
      {
        Swap(a, j - 1, j);
        j := j - 1;
      }
      i := i + 1;
    }
  }

  /** get_last_message's answer: no group has the number (None), the number's list is
      empty (messages[0] raises IndexError), or the text of the newest message. */
  datatype LastMessage = NoMessages | IndexErrorRaised | LastText(text: string)

  /** get_last_message: only the first group holding the number is used; its list is
      sorted newest first in place and the text of its head is returned. */
  method GetLastMessage(phone: string, response: seq<Group>) returns (r: LastMessage)
    modifies ListToSort(response, phone)
    ensures GroupIndex(response, phone).None? ==> r == NoMessages
    ensures GroupIndex(response, phone).Some? ==>
      var a := response[GroupIndex(response, phone).value][phone];
      && SortedDesc(a[..]) && multiset(a[..]) == multiset(old(a[..]))
      && (a.Length == 0 <==> r == IndexErrorRaised)
      && (a.Length > 0 ==> r == LastText(a[0].text) && a[0] in old(a[..]))
      && (a.Length > 0 ==> forall k :: 0 <= k < a.Length ==> old(a[k]).receivedAt <= a[0].receivedAt)
  {
    var found := GroupIndex(response, phone);
    if found.None? {
      return NoMessages;
    }
    var messages := response[found.value][phone];
    SortNewestFirst(messages);
    if messages.Length == 0 {
      return IndexErrorRaised;
    }
    SortedHeadIsNewest(messages[..], old(messages[..]));
    assert forall k :: 0 <= k < messages.Length ==> old(messages[k]) in old(messages[..]);
    r := LastText(messages[0].text);
  }

  /** get_all_numbers: every phone-number key of every group, each once. The guard
      against "491736536574" compares a whole group (a dict) with a string, is always
      true, and so excludes nothing: no key is left out. The list order of list(set)
      is not modelled. */
  method GetAllNumbers(response: seq<Group>) returns (numbers: seq<string>)
    ensures forall k :: k in numbers <==> exists i :: 0 <= i < |response| && k in response[i]
    ensures forall p, q :: 0 <= p < q < |numbers| ==> numbers[p] != numbers[q]
  {
    var phoneNumbers: set<string> := {};
    for i := 0 to |response|
      invariant forall k :: k in phoneNumbers <==> exists j :: 0 <= j < i && k in response[j]
    {
      phoneNumbers := phoneNumbers + response[i].Keys;
    }
    numbers := [];
    var rest := phoneNumbers;
    while rest != {}
      invariant rest <= phoneNumbers
      invariant forall k :: k in numbers ==> k in phoneNumbers && k !in rest
      invariant forall k :: k in phoneNumbers ==> k in rest || k in numbers
      invariant forall p, q :: 0 <= p < q < |numbers| ==> numbers[p] != numbers[q]
      decreases |rest|
    {
      var k :| k in rest;
      numbers := numbers + [k];
      rest := rest - {k};
    }
  }
}
