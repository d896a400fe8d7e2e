/** retrieve_phone_numbers.py: fetch_phone_numbers_from_json, which walks the decoded
    items and collects the trimmed string form of each item's phone-number value. */
module RetrievePhoneNumbers {
  import opened PyText
  import opened JsonValues

  /** `key in s` for a string s: key occurs in s as a substring. */
  function Contains(s: string, key: string): (b: bool)
    ensures b <==> exists i :: 0 <= i <= |s| && StartsWith(s[i..], key)
    decreases |s|
  {
    assert s[0..] == s;
    assert forall i :: 1 <= i <= |s| ==> s[i..] == s[1..][i - 1..];
    StartsWith(s, key) || (s != [] && Contains(s[1..], key))
  }

  /** What the loop does with one item: append a number, print a warning and go on, or
      stop because `key in item` or `item[key]` raised an error, which the surrounding
      `except Exception` catches, ending the loop. */
  datatype Step = Take(number: string) | Skip | Stop

  /** The step for one item. A dict holding the key gives str(value) trimmed, where
      `str` stands for Python's str() of a decoded value; a dict without it is skipped;
      a list holding the key as an element, or a string holding it as a substring,
      passes the membership test and then fails to be indexed by a string; a number,
      boolean or null cannot be searched at all. */
  function StepFor(item: Json, key: string, str: Json -> string): (st: Step)
    ensures st.Take? <==> item.Obj? && key in item.fields
    ensures st.Take? ==> st.number == Strip(str(item.fields[key]))
    ensures item.Obj? && key !in item.fields ==> st == Skip
    ensures item.Arr? ==> (st == Stop <==> Str(key) in item.items)
    ensures item.Str? ==> (st == Stop <==> Contains(item.s, key))
    ensures item.Null? || item.Bool? || item.Int? || item.Float? ==> st == Stop
  {
    match item
    case Obj(fields) => if key in fields then Take(Strip(str(fields[key]))) else Skip
    case Arr(elements) => if Str(key) in elements then Stop else Skip
    case Str(s) => if Contains(s, key) then Stop else Skip
    case _ => Stop
  }

  /** The list the loop builds from `items`: the numbers of the items before the first
      one that stops it, in item order. */
  function Extracted(items: seq<Json>, key: string, str: Json -> string): (r: seq<string>)
    ensures |r| <= |items|
  {
    if items == [] then []
    else match StepFor(items[0], key, str)
      case Take(n) => [n] + Extracted(items[1..], key, str)
      case Skip => Extracted(items[1..], key, str)
      case Stop => []
  }

  /** Extraction over two runs of items, the first of which never stops the loop, is
      the extraction of the first followed by that of the second: the output keeps
      the order of the items. */
  lemma {:induction false} ExtractedAppend(a: seq<Json>, b: seq<Json>, key: string, str: Json -> string)
    requires forall i :: 0 <= i < |a| ==> !StepFor(a[i], key, str).Stop?
    ensures Extracted(a + b, key, str) == Extracted(a, key, str) + Extracted(b, key, str)
    decreases |a|
  {
    if a != [] {
      assert (a + b)[0] == a[0];
      assert (a + b)[1..] == a[1..] + b;
      ExtractedAppend(a[1..], b, key, str);
    } else {
      assert a + b == b;
    }
  }

  /** A first item that is a dict holding the key puts its trimmed value in front. */
  lemma ExtractedTake(items: seq<Json>, key: string, str: Json -> string)
    requires items != [] && items[0].Obj? && key in items[0].fields
    ensures Extracted(items, key, str) == [Strip(str(items[0].fields[key]))] + Extracted(items[1..], key, str)
  {
    assert StepFor(items[0], key, str).Take?;
  }

  /** When every item is a dict holding the key, the output has one entry per item: the
      item's value as a string, trimmed. */
  lemma {:induction false} AllKeyedExtracted(items: seq<Json>, key: string, str: Json -> string)
    requires forall i :: 0 <= i < |items| ==> items[i].Obj? && key in items[i].fields
    ensures var r := Extracted(items, key, str);
      |r| == |items| && forall i :: 0 <= i < |items| ==> r[i] == Strip(str(items[i].fields[key]))
    decreases |items|
  {
    if items != [] {
      var tail := items[1..];
      assert forall j :: 0 <= j < |tail| ==> tail[j] == items[j + 1];
      AllKeyedExtracted(tail, key, str);
      ExtractedTake(items, key, str);
      var rest := Extracted(tail, key, str);
      var r := [Strip(str(items[0].fields[key]))] + rest;
      forall i | 1 <= i < |items|
        ensures r[i] == Strip(str(items[i].fields[key]))
      {
        assert r[i] == rest[i - 1] && tail[i - 1] == items[i];
      }
    }
  }

  /** Dicts without the key contribute nothing. */
  lemma {:induction false} UnkeyedSkipped(items: seq<Json>, key: string, str: Json -> string)
    requires forall i :: 0 <= i < |items| ==> items[i].Obj? && key !in items[i].fields
    ensures Extracted(items, key, str) == []
    decreases |items|
  {
    if items != [] {
      UnkeyedSkipped(items[1..], key, str);
    }
  }

  /** The file as the function finds it: absent, not valid JSON, a document that cannot
      be iterated (a number, boolean or null), or the sequence of items `for item in
      data` visits (the elements of a list, the case the script expects). */
  datatype ItemsFile = FileNotFound | Undecodable | NotIterable | Iterated(items: seq<Json>)

  /** fetch_phone_numbers_from_json: an absent, undecodable or non-iterable file gives
      an empty list; otherwise the numbers collected before any error, in item order.
      The key is a parameter here; the script's default for it is "phone_number". */
  method FetchPhoneNumbersFromJson(file: ItemsFile, key: string, str: Json -> string)
    returns (phoneNumbers: seq<string>)
    ensures !file.Iterated? ==> phoneNumbers == []
    ensures file.Iterated? ==> phoneNumbers == Extracted(file.items, key, str)
    ensures file.Iterated? ==> |phoneNumbers| <= |file.items|
  {
    phoneNumbers := [];
    if !file.Iterated? {
      return;
    }
    var items := file.items;
    var i := 0;
    while i < |items|
      invariant 0 <= i <= |items|
      invariant Extracted(items, key, str) == phoneNumbers + Extracted(items[i..], key, str)
    {
      assert items[i..][1..] == items[i + 1..];
      var step := StepFor(items[i], key, str);
      if step.Stop? {
        return;
      }
      if step.Take? {
        phoneNumbers := phoneNumbers + [step.number];
      }
      i := i + 1;
    }
  }
}
