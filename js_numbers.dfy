/** `parseInt(x) || 0`, the way seat counts are read from reading-room records. */
module JsNumbers {
  import opened JsValues
  import opened JsStrings

  /** The value of a digit in the largest radix `parseInt` uses here (16). */
  function DigitValue(c: char): (d: Option<nat>)
    ensures d.Some? ==> d.value < 16
  {
    if '0' <= c <= '9' then Some(c as int - '0' as int)
    else if 'a' <= c <= 'f' then Some(c as int - 'a' as int + 10)
    else if 'A' <= c <= 'F' then Some(c as int - 'A' as int + 10)
    else None
  }

  predicate IsDigit(c: char, radix: nat) {
    DigitValue(c).Some? && DigitValue(c).value < radix
  }

  /** The longest prefix of `s` made of digits in `radix`. */
  function DigitPrefix(s: string, radix: nat): (d: string)
    ensures |d| <= |s| && d == s[..|d|]
    ensures forall i :: 0 <= i < |d| ==> IsDigit(d[i], radix)
    ensures |d| < |s| ==> !IsDigit(s[|d|], radix)
  {
    if |s| > 0 && IsDigit(s[0], radix) then
      var d := [s[0]] + DigitPrefix(s[1..], radix);
      assert |d| < |s| ==> s[|d|] == s[1..][|d| - 1];
      d
    else ""
  }

  /** The number a string of digits denotes, most significant digit first. */
  function DigitsValue(d: string, radix: nat): nat
    requires forall i :: 0 <= i < |d| ==> IsDigit(d[i], radix)
  {
    if |d| == 0 then 0
    else
      var last := d[|d| - 1];
      DropLastDigit(d, d[..|d| - 1], radix);
      var high := DigitsValue(d[..|d| - 1], radix);
      ScaleNat(high, radix);
      high * radix + DigitValue(last).value
  }

  /** Shifting a value by one digit place keeps it a natural number. */
  lemma ScaleNat(high: nat, radix: nat)
    ensures high * radix >= 0
  {
  }

  /** All but the last of a run of digits is a run of digits. */
  lemma DropLastDigit(d: string, init: string, radix: nat)
    requires |d| > 0 && forall i :: 0 <= i < |d| ==> IsDigit(d[i], radix)
    requires init == d[..|d| - 1]
    ensures DigitValue(d[|d| - 1]).Some?
    ensures forall i :: 0 <= i < |init| ==> IsDigit(init[i], radix)
  {
    assert IsDigit(d[|d| - 1], radix);
    assert forall i :: 0 <= i < |init| ==> init[i] == d[i];
  }

  /** The text `parseInt` reads the magnitude from: the text after the
      leading white space, without one leading sign. */
  function Unsigned(s: string): string {
    var t := TrimStart(s);
    if |t| > 0 && (t[0] == '-' || t[0] == '+') then t[1..] else t
  }

  /** `parseInt(s)` with the radix omitted; `None` is NaN. Leading white space
      is skipped and one sign is read before the magnitude. */
  function ParseInt(s: string): Option<int> {
    var t := TrimStart(s);
    var negative := |t| > 0 && t[0] == '-';
    match ParseMagnitude(Unsigned(s))
    case None => None
    case Some(m) => Some(if negative then -(m as int) else m as int)
  }

  /** The magnitude after the sign: a "0x"/"0X" prefix switches to radix 16,
      then the longest run of digits is read; no digit at all gives NaN. */
  function ParseMagnitude(u: string): Option<nat> {
    var hex := |u| >= 2 && u[0] == '0' && (u[1] == 'x' || u[1] == 'X');
    var radix := if hex then 16 else 10;
    var digits := DigitPrefix(if hex then u[2..] else u, radix);
    if |digits| == 0 then None else Some(DigitsValue(digits, radix))
  }

  /** `parseInt(x) || 0` on a record field: a missing field (`parseInt(undefined)`)
      and any text without digits count as 0 (both NaN and -0 are falsy). */
  function ParseIntOrZero(f: Field): int {
    match f
    case None => 0
    case Some(s) =>
      match ParseInt(s)
      case None => 0
      case Some(n) => n
  }

  /** Decimal text of a natural number, without leading zeros. */
  function DecimalString(n: nat): (s: string)
    ensures |s| >= 1
    ensures forall i :: 0 <= i < |s| ==> '0' <= s[i] <= '9'
  {
    if n < 10 then [('0' as int + n) as char]
    else DecimalString(n / 10) + [('0' as int + n % 10) as char]
  }

  /** Decimal text of an integer, as `String(x)` prints it. */
  function IntString(x: int): string {
    if x < 0 then "-" + DecimalString(-x) else DecimalString(x)
  }

  lemma {:induction false} DecimalStringValue(n: nat)
    ensures forall i :: 0 <= i < |DecimalString(n)| ==> IsDigit(DecimalString(n)[i], 10)
    ensures DigitsValue(DecimalString(n), 10) == n
  {
    var s := DecimalString(n);
    forall i | 0 <= i < |s| ensures IsDigit(s[i], 10) {
      assert '0' <= s[i] <= '9';
    }
    if n >= 10 {
      DecimalStringValue(n / 10);
      assert s[..|s| - 1] == DecimalString(n / 10);
    }
  }

  lemma {:induction false} DigitPrefixOfDigits(s: string, radix: nat)
    requires forall i :: 0 <= i < |s| ==> IsDigit(s[i], radix)
    ensures DigitPrefix(s, radix) == s
  {
    if |s| > 0 {
      DigitPrefixOfDigits(s[1..], radix);
      assert [s[0]] + s[1..] == s;
    }
  }

  lemma DecimalMagnitude(n: nat)
    ensures ParseMagnitude(DecimalString(n)) == Some(n)
  {
    var u := DecimalString(n);
    assert !(|u| >= 2 && u[0] == '0' && (u[1] == 'x' || u[1] == 'X')) by {
      if |u| >= 2 { assert '0' <= u[1] <= '9'; }
    }
    DecimalStringValue(n);
    DigitPrefixOfDigits(u, 10);
  }

  /** `parseInt` reads back what `String` prints for every integer. */
  lemma ParseIntRoundTrip(x: int)
    ensures ParseInt(IntString(x)) == Some(x)
  {
    var magnitude: nat := if x < 0 then -x else x;
    var u := DecimalString(magnitude);
    var s := IntString(x);
    assert !IsJsWhiteSpace(s[0]) by {
      if x < 0 { assert s[0] == '-'; } else { assert '0' <= s[0] <= '9'; }
    }
    assert TrimStart(s) == s;
    DecimalMagnitude(magnitude);
    if x < 0 {
      assert s[1..] == u;
    } else {
      assert '0' <= s[0] <= '9';
    }
  }

  /** Seat counts written as decimal integers are counted at their value. */
  lemma SeatCountOfDecimalText(x: int)
    ensures ParseIntOrZero(Some(IntString(x))) == x
  {
    ParseIntRoundTrip(x);
  }

  /** A missing count, or one with no digit after the white space and an
      optional sign ("", "abc", "-", "+x", "- 5"), counts as zero. */
  lemma SeatCountWithoutDigits(s: string)
    requires Unsigned(s) == [] || !('0' <= Unsigned(s)[0] <= '9')
    ensures ParseIntOrZero(None) == 0
    ensures ParseIntOrZero(Some(s)) == 0
  {
    var u := Unsigned(s);
    if |u| > 0 {
      assert !IsDigit(u[0], 10) by {
        if 'a' <= u[0] <= 'f' || 'A' <= u[0] <= 'F' { assert DigitValue(u[0]).value >= 10; }
      }
      assert DigitPrefix(u, 10) == "";
    }
    assert ParseMagnitude(u) == None;
  }
}
