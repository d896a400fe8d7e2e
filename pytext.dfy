/** The Python string operations the core relies on (str.isspace, isdigit, isalpha,
    lower, startswith, strip, lstrip, split, replace(c, '', 1), int() and float() on
    digit strings), restricted to ASCII characters. */
module PyText {
  import opened Wrappers

  /** str.isspace on one ASCII character: \t \n \v \f \r, the separators \x1c-\x1f and ' '. */
  function IsSpace(c: char): (b: bool)
    ensures b ==> !IsDigit(c) && !IsAlpha(c) && c != '+' && c != '.'
  {
    9 <= c as int <= 13 || 28 <= c as int <= 32
  }

  predicate IsDigit(c: char) {
    '0' <= c <= '9'
  }

  predicate IsAlpha(c: char) {
    'a' <= c <= 'z' || 'A' <= c <= 'Z'
  }

  predicate IsUpper(c: char) {
    'A' <= c <= 'Z'
  }

  /** str.isdigit: at least one character, and every character a digit. */
  function IsDigits(s: string): (b: bool)
    ensures b ==> s != [] && NoSpace(s) && '.' !in s && '+' !in s
  {
    |s| > 0 && forall i :: 0 <= i < |s| ==> IsDigit(s[i])
  }

  /** str.isalpha: at least one character, and every character a letter. */
  function IsAlphas(s: string): (b: bool)
    ensures b ==> s != [] && NoSpace(s)
  {
    |s| > 0 && forall i :: 0 <= i < |s| ==> IsAlpha(s[i])
  }

  /** str.startswith: s is the prefix followed by the rest of s. */
  function StartsWith(s: string, prefix: string): (b: bool)
    ensures b <==> |prefix| <= |s| && s == prefix + s[|prefix|..]
  {
    |prefix| <= |s| && s[..|prefix|] == prefix
  }

  predicate NoSpace(s: string) {
    forall i :: 0 <= i < |s| ==> !IsSpace(s[i])
  }

  function LowerChar(c: char): (r: char)
    ensures !IsUpper(r)
    ensures !IsUpper(c) ==> r == c
    ensures IsSpace(r) <==> IsSpace(c)
  {
    if IsUpper(c) then (c as int + 32) as char else c
  }

  /** str.lower */
  function Lower(s: string): (r: string)
    ensures |r| == |s|
    ensures forall i :: 0 <= i < |s| ==> r[i] == LowerChar(s[i])
  {
    seq(|s|, i requires 0 <= i < |s| => LowerChar(s[i]))
  }

  /** A word of lower-case ASCII letters is unchanged by strip() and lower(). */
  lemma LowerWordClean(s: string)
    requires forall i :: 0 <= i < |s| ==> 'a' <= s[i] <= 'z'
    ensures Lower(Strip(s)) == s
  {
    assert NoSpace(s);
    assert Strip(s) == s;
    assert Lower(s) == s;
  }

  /** Lowercasing twice is lowercasing once. */
  lemma LowerIdempotent(s: string)
    ensures Lower(Lower(s)) == Lower(s)
  {
  }

  /** str.lstrip(): drops the leading whitespace, and only that. */
  function StripLeft(s: string): (r: string)
    ensures |r| <= |s| && r == s[|s| - |r|..]
    ensures forall i :: 0 <= i < |s| - |r| ==> IsSpace(s[i])
    ensures r != [] ==> !IsSpace(r[0])
  {
    if |s| > 0 && IsSpace(s[0]) then StripLeft(s[1..]) else s
  }

  /** str.rstrip(): drops the trailing whitespace, and only that. */
  function StripRight(s: string): (r: string)
    ensures |r| <= |s| && r == s[..|r|]
    ensures forall i :: |r| <= i < |s| ==> IsSpace(s[i])
    ensures r != [] ==> !IsSpace(r[|r| - 1])
  {
    if |s| > 0 && IsSpace(s[|s| - 1]) then StripRight(s[..|s| - 1]) else s
  }

  /** str.strip(): a slice of the input with no whitespace at either end. */
  function Strip(s: string): (r: string)
    ensures |r| <= |s|
    ensures r != [] ==> !IsSpace(r[0]) && !IsSpace(r[|r| - 1])
    ensures NoSpace(s) ==> r == s
  {
    StripRight(StripLeft(s))
  }

  /** A string with no whitespace at either end is its own strip. */
  lemma StripNoSpace(s: string)
    requires s == [] || (!IsSpace(s[0]) && !IsSpace(s[|s| - 1]))
    ensures Strip(s) == s
  {
  }

  /** str.lstrip(c): drops every leading occurrence of c, and only those. */
  function LStrip(s: string, c: char): (r: string)
    ensures |r| <= |s| && r == s[|s| - |r|..]
    ensures forall i :: 0 <= i < |s| - |r| ==> s[i] == c
    ensures r != [] ==> r[0] != c
  {
    if |s| > 0 && s[0] == c then LStrip(s[1..], c) else s
  }

  /** The index of the first occurrence of c, if any (str.find). */
  function IndexOf(s: string, c: char): (r: Option<nat>)
    ensures r.Some? ==> r.value < |s| && s[r.value] == c && c !in s[..r.value]
    ensures r.None? ==> c !in s
  {
    if s == [] then None
    else if s[0] == c then Some(0)
    else match IndexOf(s[1..], c)
      case None => None
      case Some(k) => Some(k + 1)
  }

  /** str.replace(c, '', 1): removes the first occurrence of c, if there is one. */
  function RemoveFirst(s: string, c: char): (r: string)
    ensures c in s ==> |r| == |s| - 1
    ensures c in s ==> exists k :: 0 <= k < |s| && s[k] == c && c !in s[..k] && r == s[..k] + s[k + 1..]
    ensures c !in s ==> r == s
  {
    match IndexOf(s, c)
    case None => s
    case Some(k) => s[..k] + s[k + 1..]
  }

  /** The longest prefix of s without whitespace. */
  function Word(s: string): (w: string)
    ensures |w| <= |s| && w == s[..|w|] && NoSpace(w)
    ensures |w| < |s| ==> IsSpace(s[|w|])
  {
    if s == [] || IsSpace(s[0]) then [] else [s[0]] + Word(s[1..])
  }

  /** str.split() with no separator: the maximal runs of non-whitespace, in order. */
  function Split(s: string): (r: seq<string>)
    ensures forall i :: 0 <= i < |r| ==> r[i] != [] && NoSpace(r[i])
    decreases |s|
  {
    var t := StripLeft(s);
    if t == [] then []
    else
      var w := Word(t);
      [w] + Split(t[|w|..])
  }

  /** Splitting a word followed by a separator and a rest gives the word, then the split rest. */
  lemma {:induction false} SplitCons(w: string, sep: char, rest: string)
    requires w != [] && NoSpace(w) && IsSpace(sep)
    ensures Split(w + [sep] + rest) == [w] + Split(rest)
  {
    var tail := [sep] + rest;
    var s := w + tail;
    assert s == w + [sep] + rest;
    assert StripLeft(s) == s;
    WordOf(w, tail);
    assert s[|w|..] == tail;
    assert Split(s) == [w] + Split(tail);
    assert tail[1..] == rest;
    assert StripLeft(tail) == StripLeft(rest);
  }

  /** The first word of w followed by a string starting with whitespace is w. */
  lemma {:induction false} WordOf(w: string, rest: string)
    requires NoSpace(w) && (rest == [] || IsSpace(rest[0]))
    ensures Word(w + rest) == w
  {
    if w != [] {
      assert (w + rest)[1..] == w[1..] + rest;
      WordOf(w[1..], rest);
    }
  }

  /** A single word splits into itself. */
  lemma SplitWord(w: string)
    requires w != [] && NoSpace(w)
    ensures Split(w) == [w]
  {
    WordOf(w, []);
    assert w + [] == w;
    assert StripLeft(w) == w;
    assert w[|w|..] == [];
    assert Split([]) == [];
  }

  function Pow10(n: nat): (r: nat)
    ensures r >= 1
  {
    if n == 0 then 1 else 10 * Pow10(n - 1)
  }

  function DigitValue(c: char): (d: nat)
    requires IsDigit(c)
    ensures d <= 9
  {
    c as int - '0' as int
  }

  /** int(s) for a string of ASCII digits: its decimal value, below 10^|s|. */
  function DigitsValue(s: string): (r: nat)
    requires forall i :: 0 <= i < |s| ==> IsDigit(s[i])
    ensures r < Pow10(|s|)
  {
    if s == [] then 0 else DigitsValue(s[..|s| - 1]) * 10 + DigitValue(s[|s| - 1])
  }

  /** float(s) for a string that is all digits once its first '.' is removed:
      the integer part plus the fraction digits scaled by their count. */
  function DecimalValue(s: string): (r: real)
    requires IsDigits(RemoveFirst(s, '.'))
    ensures r >= 0.0
  {
    match IndexOf(s, '.')
    case None => DigitsValue(s) as real
    case Some(k) =>
      var whole, frac := s[..k], s[k + 1..];
      assert forall i :: 0 <= i < |whole| ==> whole[i] == RemoveFirst(s, '.')[i];
      assert forall i :: 0 <= i < |frac| ==> frac[i] == RemoveFirst(s, '.')[k + i];
      DigitsValue(whole) as real + DigitsValue(frac) as real / Pow10(|frac|) as real
  }

  /** float() of digits, a '.', and digits: the whole part plus the fraction digits
      divided by ten to the power of their count ("70.5" reads as 70.5). */
  lemma {:induction false} DecimalWithFraction(whole: string, frac: string)
    requires IsDigits(whole) && IsDigits(frac)
    ensures RemoveFirst(whole + "." + frac, '.') == whole + frac
    ensures DecimalValue(whole + "." + frac)
         == DigitsValue(whole) as real + DigitsValue(frac) as real / Pow10(|frac|) as real
  {
    var s := whole + "." + frac;
    assert s[|whole|] == '.';
    assert '.' in s;
    assert IndexOf(s, '.') == Some(|whole|);
    assert s[..|whole|] == whole && s[|whole| + 1..] == frac;
  }

  /** A weight written "70.5" is read as 70.5, not as 705. */
  lemma DecimalExample()
    ensures DecimalValue("70.5") == 70.5
  {
    DecimalWithFraction("70", "5");
    assert "70" + "." + "5" == "70.5";
  }
}
