/**
 * `TimeUtil.parseDurationToSeconds`: a duration is one or more decimal digits followed by exactly
 * one unit letter (`d`, `h`, `m` or `s`), and nothing else.
 */
module TimeUtil {
  import opened Wrappers
  import opened Exceptions

  predicate IsDigit(c: char) {
    '0' <= c <= '9'
  }

  predicate AllDigits(s: string) {
    forall i :: 0 <= i < |s| ==> IsDigit(s[i])
  }

  predicate IsUnit(c: char) {
    c == 'd' || c == 'h' || c == 'm' || c == 's'
  }

  /** What `/^(\d+)([dhms])$/` accepts. */
  predicate MatchesDuration(s: string) {
    |s| >= 2 && AllDigits(s[..|s| - 1]) && IsUnit(s[|s| - 1])
  }

  /** `parseInt(digits, 10)`: the digits read left to right in base 10. */
  function DigitsValue(digits: string): nat
    requires AllDigits(digits)
    decreases |digits|
  {
    if digits == [] then 0
    else DigitsValue(digits[..|digits| - 1]) * 10 + (digits[|digits| - 1] - '0') as nat
  }

  /** Seconds in one unit. */
  function UnitSeconds(unit: char): nat {
    match unit
    case 'd' => 24 * 60 * 60
    case 'h' => 60 * 60
    case 'm' => 60
    case _ => 1
  }

  /** The `switch (unit)` of the source, with its `default` branch. */
  function ScaleByUnit(value: nat, unit: char): (r: Result<nat, Exception>)
    ensures r.Ok? <==> IsUnit(unit)
    ensures r.Ok? ==> r.value == value * UnitSeconds(unit)
    ensures r.Err? ==> r.error == Unauthorized("Invalid duration unit")
  {
    match unit
    case 'd' => Ok(value * 24 * 60 * 60)
    case 'h' => Ok(value * 60 * 60)
    case 'm' => Ok(value * 60)
    case 's' => Ok(value)
    case _ => Err(Unauthorized("Invalid duration unit"))
  }

  function ParseDurationToSeconds(duration: string): (r: Result<nat, Exception>)
    ensures r.Err? <==> !MatchesDuration(duration)
    ensures r.Err? ==> r.error == Unauthorized("Invalid duration format")
    ensures r.Ok? ==> r.value == DigitsValue(duration[..|duration| - 1]) * UnitSeconds(duration[|duration| - 1])
  {
    if !MatchesDuration(duration) then Err(Unauthorized("Invalid duration format"))
    else ScaleByUnit(DigitsValue(duration[..|duration| - 1]), duration[|duration| - 1])
  }

  /** The decimal representation of n, without leading zeros ("0" for zero). */
  function Decimal(n: nat): (s: string)
    ensures |s| >= 1 && AllDigits(s)
    decreases n
  {
    if n < 10 then [('0' as int + n) as char]
    else Decimal(n / 10) + [('0' as int + n % 10) as char]
  }

  /** Reading back a decimal representation gives the number. */
  lemma {:induction false} DecimalValue(n: nat)
    ensures DigitsValue(Decimal(n)) == n
    decreases n
  {
    if n >= 10 {
      DecimalValue(n / 10);
      var s := Decimal(n);
      assert s[..|s| - 1] == Decimal(n / 10);
    }
  }

  /** Leading zeros do not change the value read: "007s" is seven seconds. */
  lemma {:induction false} LeadingZeros(zeros: nat, digits: string)
    requires AllDigits(digits)
    ensures AllDigits(seq(zeros, _ => '0') + digits)
    ensures DigitsValue(seq(zeros, _ => '0') + digits) == DigitsValue(digits)
    decreases |digits|
  {
    var z := seq(zeros, _ => '0');
    var s := z + digits;
    assert AllDigits(s) by {
      forall i | 0 <= i < |s| ensures IsDigit(s[i]) {
        if i < zeros { assert s[i] == z[i]; } else { assert s[i] == digits[i - zeros]; }
      }
    }
    if digits == [] {
      assert s == z;
      AllZeros(zeros);
    } else {
      var init := digits[..|digits| - 1];
      LeadingZeros(zeros, init);
      assert s[..|s| - 1] == z + init;
    }
  }

  /** A string of zeros reads as zero. */
  lemma {:induction false} AllZeros(zeros: nat)
    ensures AllDigits(seq(zeros, _ => '0'))
    ensures DigitsValue(seq(zeros, _ => '0')) == 0
    decreases zeros
  {
    if zeros > 0 {
      AllZeros(zeros - 1);
      assert seq(zeros, _ => '0')[..zeros - 1] == seq(zeros - 1, _ => '0');
    }
  }

  /** A digit string followed by a unit letter parses to its value times the unit. */
  lemma DigitsThenUnit(digits: string, unit: char)
    requires |digits| >= 1 && AllDigits(digits) && IsUnit(unit)
    ensures ParseDurationToSeconds(digits + [unit]) == Ok(DigitsValue(digits) * UnitSeconds(unit))
  {
    assert (digits + [unit])[..|digits|] == digits;
  }

  /** "<n>d", "<n>h", "<n>m" and "<n>s" give n days, hours, minutes and seconds in seconds. */
  lemma UnitScales(n: nat)
    ensures ParseDurationToSeconds(Decimal(n) + "d") == Ok(n * 86400)
    ensures ParseDurationToSeconds(Decimal(n) + "h") == Ok(n * 3600)
    ensures ParseDurationToSeconds(Decimal(n) + "m") == Ok(n * 60)
    ensures ParseDurationToSeconds(Decimal(n) + "s") == Ok(n)
  {
    DecimalValue(n);
    DigitsThenUnit(Decimal(n), 'd');
    DigitsThenUnit(Decimal(n), 'h');
    DigitsThenUnit(Decimal(n), 'm');
    DigitsThenUnit(Decimal(n), 's');
  }

  /** The `default` branch of the unit switch is never reached once the pattern matched. */
  lemma DefaultUnreachable(duration: string)
    ensures ParseDurationToSeconds(duration) != Err(Unauthorized("Invalid duration unit"))
  {
  }

  /** For a fixed unit the result grows with the number. */
  lemma Monotone(a: nat, b: nat, unit: char)
    requires a <= b && IsUnit(unit)
    ensures ParseDurationToSeconds(Decimal(a) + [unit]).Ok?
    ensures ParseDurationToSeconds(Decimal(b) + [unit]).Ok?
    ensures ParseDurationToSeconds(Decimal(a) + [unit]).value <= ParseDurationToSeconds(Decimal(b) + [unit]).value
  {
    DecimalValue(a);
    DecimalValue(b);
    DigitsThenUnit(Decimal(a), unit);
    DigitsThenUnit(Decimal(b), unit);
  }

  /** Inputs the pattern refuses: empty, unknown unit, combined units, fractions, blanks. */
  lemma RejectedExamples()
    ensures ParseDurationToSeconds("").Err?
    ensures ParseDurationToSeconds("5x").Err?
    ensures ParseDurationToSeconds("1h30m").Err?
    ensures ParseDurationToSeconds("1.5h").Err?
    ensures ParseDurationToSeconds(" 1h").Err?
    ensures ParseDurationToSeconds("h").Err?
  {
    assert !IsDigit('x') && !IsUnit('x');
    assert "1h30m"[..4][1] == 'h';
    assert "1.5h"[..3][1] == '.';
    assert " 1h"[..2][0] == ' ';
  }

  /** Worked values: "2d" is 172800 seconds, "30m" is 1800 and "007s" is 7. */
  lemma Examples()
    ensures ParseDurationToSeconds("2d") == Ok(172800)
    ensures ParseDurationToSeconds("30m") == Ok(1800)
    ensures ParseDurationToSeconds("007s") == Ok(7)
  {
    assert "2"[..0] == "" && DigitsValue("2") == 2;
    DigitsThenUnit("2", 'd');
    assert "2" + ['d'] == "2d";
    assert "3"[..0] == "" && DigitsValue("3") == 3;
    assert "30"[..1] == "3" && DigitsValue("30") == 30;
    DigitsThenUnit("30", 'm');
    assert "30" + ['m'] == "30m";
    assert "007" == seq(2, _ => '0') + "7";
    LeadingZeros(2, "7");
    assert "7"[..0] == "" && DigitsValue("7") == 7;
    DigitsThenUnit("007", 's');
    assert "007" + ['s'] == "007s";
  }
}
