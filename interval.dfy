/**
 * The interval codec: an interval token such as "15m" or "4h" becomes a
 * duration in seconds. The last character is the unit; for minutes and hours
 * the characters before it are read as a Python integer, for days and weeks
 * they are ignored altogether.
 */
module Interval {
  import opened Wrappers
  import opened Errors

  const MINUTE: int := 60
  const HOUR: int := 60 * 60
  const DAY: int := 24 * 60 * 60
  const WEEK: int := 7 * 24 * 60 * 60

  predicate IsDigit(ch: char) { '0' <= ch <= '9' }

  predicate AllDigits(s: string) { forall i :: 0 <= i < |s| ==> IsDigit(s[i]) }

  /** The value of a run of decimal digits, most significant first. */
  function DigitsValue(s: string): nat
    requires AllDigits(s)
  {
    if s == [] then 0 else DigitsValue(s[..|s| - 1]) * 10 + (s[|s| - 1] as int - '0' as int)
  }

  /**
   * Python's `int(s)` on a decimal literal: an optional sign followed by at
   * least one digit; anything else raises ValueError (None here).
   */
  function ParseInt(s: string): Option<int>
  {
    if |s| > 0 && (s[0] == '-' || s[0] == '+') then
      if |s| > 1 && AllDigits(s[1..]) then
        Some(if s[0] == '-' then -(DigitsValue(s[1..]) as int) else DigitsValue(s[1..]))
      else None
    else if |s| > 0 && AllDigits(s) then Some(DigitsValue(s))
    else None
  }

  /** The unit character of a non-empty token. */
  function Unit(token: string): char
    requires |token| > 0
  {
    token[|token| - 1]
  }

  /** Everything before the unit character. */
  function Prefix(token: string): string
    requires |token| > 0
  {
    token[..|token| - 1]
  }

  /** Seconds per unit for the two units that honour their numeric prefix. */
  function UnitSeconds(unit: char): int
    requires unit == 'm' || unit == 'h'
  {
    if unit == 'm' then MINUTE else HOUR
  }

  /** `convert_interval`: the duration of an interval token in seconds. */
  function ConvertInterval(token: string): (r: Result<int, Error>)
    ensures |token| == 0 ==> r == Err(EmptyInterval)
    ensures r.Ok? <==> |token| > 0 && (Unit(token) in "dw" || (Unit(token) in "mh" && ParseInt(Prefix(token)).Some?))
    ensures r.Ok? && Unit(token) in "mh" ==> r.value == ParseInt(Prefix(token)).value * UnitSeconds(Unit(token))
    ensures |token| > 0 && Unit(token) == 'd' ==> r == Ok(DAY)
    ensures |token| > 0 && Unit(token) == 'w' ==> r == Ok(WEEK)
    ensures |token| > 0 && Unit(token) !in "mhdw" ==> r == Err(InvalidInterval)
  {
    if |token| == 0 then Err(EmptyInterval)
    else
      match Unit(token)
      case 'm' => (match ParseInt(Prefix(token)) case Some(n) => Ok(n * 60) case None => Err(InvalidNumber))
      case 'h' => (match ParseInt(Prefix(token)) case Some(n) => Ok(n * 60 * 60) case None => Err(InvalidNumber))
      case 'd' => Ok(24 * 60 * 60)
      case 'w' => Ok(7 * 24 * 60 * 60)
      case _ => Err(InvalidInterval)
  }

  /** The decimal representation of a natural number, without leading zeros. */
  function Decimal(n: nat): string
  {
    if n < 10 then [('0' as int + n) as char] else Decimal(n / 10) + [('0' as int + n % 10) as char]
  }

  /** The token a caller writes for `n` units of `unit`, as in "15m" or "-2h". */
  function Format(n: int, unit: char): string
  {
    (if n < 0 then "-" + Decimal(-n) else Decimal(n)) + [unit]
  }

  lemma {:induction false} DecimalDigits(n: nat)
    ensures |Decimal(n)| > 0 && AllDigits(Decimal(n)) && DigitsValue(Decimal(n)) == n
  {
    if n >= 10 {
      DecimalDigits(n / 10);
      var s := Decimal(n);
      assert s[..|s| - 1] == Decimal(n / 10);
    }
  }

  /** Reading back the decimal representation gives the number. */
  lemma ParseDecimal(n: nat)
    ensures ParseInt(Decimal(n)) == Some(n)
    ensures ParseInt("-" + Decimal(n)) == Some(-(n as int))
  {
    DecimalDigits(n);
    var s := "-" + Decimal(n);
    assert s[1..] == Decimal(n);
  }

  /** Minute and hour tokens decode to their count times the unit. */
  lemma ConvertFormatted(n: int, unit: char)
    requires unit == 'm' || unit == 'h'
    ensures ConvertInterval(Format(n, unit)) == Ok(n * UnitSeconds(unit))
  {
    var token := Format(n, unit);
    if n < 0 {
      ParseDecimal(-n);
      assert Prefix(token) == "-" + Decimal(-n);
    } else {
      ParseDecimal(n);
      assert Prefix(token) == Decimal(n);
    }
  }

  /** Day and week tokens ignore whatever comes before the unit ("3d" is one day). */
  lemma DayWeekIgnorePrefix(prefix: string, unit: char)
    requires unit == 'd' || unit == 'w'
    ensures ConvertInterval(prefix + [unit]) == Ok(if unit == 'd' then DAY else WEEK)
  {
    assert Unit(prefix + [unit]) == unit;
  }

  /** A positive minute or hour count gives a positive duration. */
  lemma PositiveCountPositiveDuration(token: string)
    requires ConvertInterval(token).Ok?
    requires Unit(token) in "dw" || ParseInt(Prefix(token)).value > 0
    ensures ConvertInterval(token).value > 0
  {
  }

  lemma Examples()
    ensures ConvertInterval("15m") == Ok(900)
    ensures ConvertInterval("2h") == Ok(7200)
    ensures ConvertInterval("1d") == Ok(86400)
    ensures ConvertInterval("3d") == Ok(86400)
    ensures ConvertInterval("1w") == Ok(604800)
    ensures ConvertInterval("5x") == Err(InvalidInterval)
    ensures ConvertInterval("m") == Err(InvalidNumber)
    ensures ConvertInterval("") == Err(EmptyInterval)
  {
    ConvertFormatted(15, 'm');
    assert Format(15, 'm') == "15m";
    ConvertFormatted(2, 'h');
    assert Format(2, 'h') == "2h";
    DayWeekIgnorePrefix("1", 'd');
    DayWeekIgnorePrefix("3", 'd');
    DayWeekIgnorePrefix("1", 'w');
    assert "1" + ['d'] == "1d";
    assert "3" + ['d'] == "3d";
    assert "1" + ['w'] == "1w";
    assert Unit("5x") == 'x';
    assert Prefix("m") == "";
  }
}
