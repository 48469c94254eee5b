/**
 * The C library text routines the command parsers lean on: character
 * classes, prefix scanning, `atoi`, the `%d` conversion of `sscanf` and the
 * `%u` conversion of `snprintf`.
 */
module Text {
  import opened Bytes

  const NUL: char := '\0'

  predicate IsDigit(c: char) { '0' <= c <= '9' }

  /** `isspace` in the C locale: blank, tab, newline, vertical tab, form feed, carriage return. */
  predicate IsSpace(c: char) { c == ' ' || '\t' <= c <= '\r' }

  predicate IsNotNul(c: char) { c != NUL }

  predicate IsComma(c: char) { c == ',' }

  predicate IsNotComma(c: char) { c != ',' }

  function DigitValue(c: char): (d: nat)
    requires IsDigit(c)
    ensures d < 10
  {
    c as int - '0' as int
  }

  function DigitChar(d: nat): (c: char)
    requires d < 10
    ensures IsDigit(c) && DigitValue(c) == d
  {
    ('0' as int + d) as char
  }

  /** The longest prefix of s whose characters all satisfy keep. */
  function TakeWhile(s: seq<char>, keep: char -> bool): (t: seq<char>)
    ensures |t| <= |s| && t == s[..|t|]
    ensures forall i :: 0 <= i < |t| ==> keep(t[i])
    ensures |t| < |s| ==> !keep(s[|t|])
  {
    if |s| == 0 || !keep(s[0]) then [] else [s[0]] + TakeWhile(s[1..], keep)
  }

  /** What is left of s once TakeWhile has consumed its prefix. */
  function DropWhile(s: seq<char>, keep: char -> bool): (t: seq<char>)
    ensures |t| <= |s| && t == s[|s| - |t|..]
    ensures |t| > 0 ==> !keep(t[0])
  {
    s[|TakeWhile(s, keep)|..]
  }

  /** A prefix of k characters that all satisfy keep, followed by one that does not (or the end), is exactly what TakeWhile takes. */
  lemma {:induction false} TakeWhileExact(s: seq<char>, keep: char -> bool, k: nat)
    requires k <= |s|
    requires forall i :: 0 <= i < k ==> keep(s[i])
    requires k < |s| ==> !keep(s[k])
    ensures TakeWhile(s, keep) == s[..k]
    ensures DropWhile(s, keep) == s[k..]
  {
    if k > 0 {
      TakeWhileExact(s[1..], keep, k - 1);
      assert s[..k] == [s[0]] + s[1..][..k - 1];
    }
  }

  /** The value of a string of decimal digits, most significant first. */
  function DigitsValue(d: seq<char>): (v: nat)
    requires forall i :: 0 <= i < |d| ==> IsDigit(d[i])
  {
    if |d| == 0 then 0 else 10 * DigitsValue(d[..|d| - 1]) + DigitValue(d[|d| - 1])
  }

  /** `%u`: the decimal digits of n, with no leading zero. */
  function Decimal(n: nat): (d: seq<char>)
    ensures |d| > 0 && forall i :: 0 <= i < |d| ==> IsDigit(d[i])
    ensures d[0] == '0' ==> n == 0
  {
    if n < 10 then [DigitChar(n)] else Decimal(n / 10) + [DigitChar(n % 10)]
  }

  /** Reading back the digits `%u` printed gives the number. */
  lemma {:induction false} DecimalValue(n: nat)
    ensures DigitsValue(Decimal(n)) == n
  {
    if n >= 10 {
      DecimalValue(n / 10);
      var d := Decimal(n);
      assert d[..|d| - 1] == Decimal(n / 10);
    }
  }

  /** The signed value of an optional sign followed by digits, after leading white space. */
  function SignedPrefix(t: seq<char>): (r: (bool, int, seq<char>))
  {
    var neg := |t| > 0 && t[0] == '-';
    var body := if |t| > 0 && (t[0] == '-' || t[0] == '+') then t[1..] else t;
    var digits := TakeWhile(body, IsDigit);
    var magnitude: int := DigitsValue(digits);
    (|digits| > 0, if neg then -magnitude else magnitude, body[|digits|..])
  }

  /**
   * `atoi`: skip white space, read an optional sign and the longest run of
   * digits; 0 when there are none. Values beyond `int` are not bounded here.
   */
  function Atoi(s: seq<char>): (v: int)
    ensures |s| > 0 && IsDigit(s[0]) ==> v >= 0
    ensures |s| == 0 || (!IsSpace(s[0]) && !IsDigit(s[0]) && s[0] != '-' && s[0] != '+') ==> v == 0
  {
    SignedPrefix(DropWhile(s, IsSpace)).1
  }

  /** atoi reads back what `%u` printed, up to the first character that is not a digit. */
  lemma AtoiDecimal(n: nat, rest: seq<char>)
    requires rest == [] || !IsDigit(rest[0])
    ensures Atoi(Decimal(n) + rest) == n
  {
    var d := Decimal(n);
    var s := d + rest;
    TakeWhileExact(s, IsSpace, 0);
    TakeWhileExact(s, IsDigit, |d|);
    assert s[..|d|] == d;
    DecimalValue(n);
  }

  /**
   * The `%d` conversion of `sscanf`: like atoi, but it fails when no digit
   * follows the optional sign, and it hands back the unread rest.
   */
  function ScanInt(s: seq<char>): (r: Option<(int, seq<char>)>)
    ensures r.Some? ==> |r.value.1| < |s|
  {
    var p := SignedPrefix(DropWhile(s, IsSpace));
    if p.0 then Some((p.1, p.2)) else None
  }

  /** `%d` reads back what `%u` printed and stops right after the digits. */
  lemma ScanIntDecimal(n: nat, rest: seq<char>)
    requires rest == [] || !IsDigit(rest[0])
    ensures ScanInt(Decimal(n) + rest) == Some((n, rest))
  {
    var d := Decimal(n);
    var s := d + rest;
    TakeWhileExact(s, IsSpace, 0);
    TakeWhileExact(s, IsDigit, |d|);
    assert s[..|d|] == d && s[|d|..] == rest;
    DecimalValue(n);
  }
}
