// Strings as sequences of characters: Python's str.strip, lower and upper on ASCII letters.
module Text {
  import opened Wrappers

  /** The ASCII characters str.strip() removes: space, tab, the line breaks and the separators 0x1C to 0x1F. */
  predicate IsSpace(c: char)
  {
    c == ' ' || c == '\t' || c == '\n' || c == '\r' || c == '\U{B}' || c == '\U{C}' || '\U{1C}' <= c <= '\U{1F}'
  }

  predicate IsDigit(c: char) { '0' <= c <= '9' }

  predicate IsAsciiLetter(c: char) { 'a' <= c <= 'z' || 'A' <= c <= 'Z' }

  /** s[i..j] is s with only whitespace outside it. */
  predicate StripsTo(s: string, i: nat, j: nat)
  {
    i <= j <= |s| &&
    (forall k :: 0 <= k < i ==> IsSpace(s[k])) &&
    (forall k :: j <= k < |s| ==> IsSpace(s[k])) &&
    (i < j ==> !IsSpace(s[i]) && !IsSpace(s[j - 1]))
  }

  function StripStart(s: string, i: nat): (k: nat)
    requires i <= |s|
    ensures i <= k <= |s|
    ensures forall t :: i <= t < k ==> IsSpace(s[t])
    ensures k < |s| ==> !IsSpace(s[k])
    decreases |s| - i
  {
    if i < |s| && IsSpace(s[i]) then StripStart(s, i + 1) else i
  }

  function StripEnd(s: string, i: nat, j: nat): (k: nat)
    requires i <= j <= |s|
    ensures i <= k <= j
    ensures forall t :: k <= t < j ==> IsSpace(s[t])
    ensures i < k ==> !IsSpace(s[k - 1])
    decreases j
  {
    if i < j && IsSpace(s[j - 1]) then StripEnd(s, i, j - 1) else j
  }

  /** str.strip(): the input without leading and trailing whitespace. */
  function Strip(s: string): (r: string)
    ensures exists i: nat, j: nat :: StripsTo(s, i, j) && r == s[i..j]
    ensures |r| <= |s|
    ensures r != [] ==> !IsSpace(r[0]) && !IsSpace(r[|r| - 1])
  {
    var i := StripStart(s, 0);
    var j := StripEnd(s, i, |s|);
    assert StripsTo(s, i, j);
    s[i..j]
  }

  /** A text without surrounding whitespace strips to itself. */
  lemma StripTrimmed(s: string)
    requires s != [] && !IsSpace(s[0]) && !IsSpace(s[|s| - 1])
    ensures Strip(s) == s
  {
    assert StripStart(s, 0) == 0;
    assert StripEnd(s, 0, |s|) == |s|;
  }

  /** Stripping twice is stripping once. */
  lemma StripIdempotent(s: string)
    ensures Strip(Strip(s)) == Strip(s)
  {
    if Strip(s) != [] {
      StripTrimmed(Strip(s));
    }
  }

  /**
   * A required form CharField whose clean_<field> demands a minimum length: the value is
   * stripped; an empty one is refused as required, a shorter one with the form's message.
   */
  function CleanMinLength(raw: string, minimum: nat, message: string): (r: Result<string>)
    ensures r.Ok? <==> Strip(raw) != "" && |Strip(raw)| >= minimum
    ensures r.Ok? ==> r.value == Strip(raw)
    ensures Strip(raw) == "" ==> r == Err("This field is required.")
    ensures Strip(raw) != "" && |Strip(raw)| < minimum ==> r == Err(message)
  {
    var s := Strip(raw);
    if s == "" then Err("This field is required.")
    else if |s| < minimum then Err(message)
    else Ok(s)
  }

  /** An accepted value passes again unchanged. */
  lemma CleanMinLengthIdempotent(raw: string, minimum: nat, message: string)
    requires CleanMinLength(raw, minimum, message).Ok?
    ensures CleanMinLength(CleanMinLength(raw, minimum, message).value, minimum, message) == CleanMinLength(raw, minimum, message)
  {
    StripIdempotent(raw);
  }

  function LowerChar(c: char): char
  {
    if 'A' <= c <= 'Z' then (c as int + 32) as char else c
  }

  function UpperChar(c: char): char
  {
    if 'a' <= c <= 'z' then (c as int - 32) as char else c
  }

  function Lower(s: string): (r: string)
    ensures |r| == |s| && forall k :: 0 <= k < |s| ==> r[k] == LowerChar(s[k])
  {
    seq(|s|, k requires 0 <= k < |s| => LowerChar(s[k]))
  }

  function Upper(s: string): (r: string)
    ensures |r| == |s| && forall k :: 0 <= k < |s| ==> r[k] == UpperChar(s[k])
  {
    seq(|s|, k requires 0 <= k < |s| => UpperChar(s[k]))
  }

  /** Django's iexact comparison. */
  predicate EqualsIgnoreCase(a: string, b: string)
  {
    Lower(a) == Lower(b)
  }

  lemma LowerOfUpper(s: string)
    ensures Lower(Upper(s)) == Lower(s)
  {
  }

  /** The decimal digits of n (Python's str(n) for n >= 0). */
  function NatToString(n: nat): (r: string)
    ensures |r| > 0 && forall k :: 0 <= k < |r| ==> IsDigit(r[k])
    decreases n
  {
    if n < 10 then [('0' as int + n) as char]
    else NatToString(n / 10) + [('0' as int + n % 10) as char]
  }

  /** int(s) for a string of decimal digits. */
  function DigitsValue(s: string): nat
    requires forall k :: 0 <= k < |s| ==> IsDigit(s[k])
  {
    if s == [] then 0
    else
      assert IsDigit(s[|s| - 1]);
      10 * DigitsValue(s[..|s| - 1]) + (s[|s| - 1] as int - '0' as int)
  }

  /** Parsing the printed form of n gives back n, so distinct numbers print differently. */
  lemma {:induction false} NatToStringRoundTrip(n: nat)
    ensures DigitsValue(NatToString(n)) == n
    decreases n
  {
    var r := NatToString(n);
    if n >= 10 {
      NatToStringRoundTrip(n / 10);
      assert r[..|r| - 1] == NatToString(n / 10);
    }
  }

  lemma NatToStringInjective(a: nat, b: nat)
    requires NatToString(a) == NatToString(b)
    ensures a == b
  {
    NatToStringRoundTrip(a);
    NatToStringRoundTrip(b);
  }

  /** str(n) for any integer. */
  function IntToString(n: int): (r: string)
    ensures r != [] && (r[0] == '-' <==> n < 0)
  {
    if n < 0 then "-" + NatToString(-n) else NatToString(n)
  }

  /** A numeric form field after strip: blank, a number, or text that does not parse. */
  datatype Field = Blank | Parsed(value: int) | Unparsable
}
