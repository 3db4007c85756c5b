/**
 * The runtime conversion of src/components/movie-details.js:34:
 * `Number(runtime.split(" ")[0])` turns OMDb's textual runtime
 * ("142 min") into a number by taking the text before the first space and
 * reading it as a JavaScript number.
 */
module RuntimeParse {

  /** The part of a JavaScript number the conversion can produce here. */
  datatype JsNumber = Finite(value: nat) | NaN

  predicate IsDigit(c: char) {
    '0' <= c <= '9'
  }

  predicate AllDigits(s: string) {
    forall i :: 0 <= i < |s| ==> IsDigit(s[i])
  }

  /** `s.split(" ")[0]`: the longest prefix of `s` that holds no space. */
  function FirstToken(s: string): (t: string)
    ensures t <= s
    ensures ' ' !in t
    ensures |t| < |s| ==> s[|t|] == ' '
  {
    if s == [] || s[0] == ' ' then [] else [s[0]] + FirstToken(s[1..])
  }

  /** The value of a string of decimal digits, most significant digit first. */
  function DigitsValue(s: string): nat
    requires AllDigits(s)
  {
    if s == [] then 0 else DigitsValue(s[..|s| - 1]) * 10 + (s[|s| - 1] as int - '0' as int)
  }

  /**
   * `Number(token)` for a token without spaces: the empty string is 0,
   * a run of decimal digits is its value, anything else is NaN.
   */
  function ToNumber(token: string): (n: JsNumber)
    ensures n.Finite? <==> AllDigits(token)
    ensures token == [] ==> n == Finite(0)
  {
    if AllDigits(token) then Finite(DigitsValue(token)) else NaN
  }

  /** The runtime in minutes, as stored in a watched entry. */
  function RuntimeMinutes(runtime: string): (n: JsNumber)
    ensures n.Finite? <==> AllDigits(FirstToken(runtime))
    ensures runtime == [] || runtime[0] == ' ' ==> n == Finite(0)
  {
    ToNumber(FirstToken(runtime))
  }

  /** The decimal rendering of `n` (no leading zeros), used to state round trips. */
  function Decimal(n: nat): (s: string)
    ensures |s| > 0 && AllDigits(s)
  {
    if n < 10 then [(n + '0' as int) as char]
    else Decimal(n / 10) + [(n % 10 + '0' as int) as char]
  }

  /** Reading back the decimal rendering of a number gives that number. */
  lemma {:induction false} DecimalRoundTrip(n: nat)
    ensures ToNumber(Decimal(n)) == Finite(n)
  {
    var s := Decimal(n);
    if n < 10 {
      assert DigitsValue(s) == DigitsValue([]) * 10 + n;
    } else {
      DecimalRoundTrip(n / 10);
      assert s[..|s| - 1] == Decimal(n / 10);
      assert DigitsValue(s) == DigitsValue(Decimal(n / 10)) * 10 + n % 10;
    }
  }

  /** The first token ends at the first space, whatever follows it. */
  lemma {:induction false} FirstTokenOfJoin(t: string, rest: string)
    requires ' ' !in t
    ensures FirstToken(t + " " + rest) == t
  {
    if t != [] {
      assert (t + " " + rest)[1..] == t[1..] + " " + rest;
      FirstTokenOfJoin(t[1..], rest);
    }
  }

  /** A runtime written as "<minutes> <unit>" gives exactly the minutes. */
  lemma MinutesBeforeUnit(n: nat, unit: string)
    ensures RuntimeMinutes(Decimal(n) + " " + unit) == Finite(n)
  {
    FirstTokenOfJoin(Decimal(n), unit);
    DecimalRoundTrip(n);
  }

  /** OMDb's usual form: "142 min" gives 142. */
  lemma RuntimeOfTypicalText()
    ensures RuntimeMinutes("142 min") == Finite(142)
  {
    MinutesBeforeUnit(142, "min");
    assert Decimal(142) == "142";
    assert Decimal(142) + " " + "min" == "142 min";
  }

  /** OMDb's placeholder "N/A" is not a number. */
  lemma RuntimeNotAvailable()
    ensures RuntimeMinutes("N/A") == NaN
  {
    assert FirstToken("N/A") == "N/A";
    assert !IsDigit("N/A"[0]);
  }
}
