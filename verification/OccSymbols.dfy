/** The option symbols of the Options Clearing Corporation, as trade/orders.go parses them: a
    root, a date yymmdd, C or P, and the strike times 1000 in eight digits. */
module OccSymbols {
  import opened Options
  import opened Decimals

  datatype Right = Call | Put

  datatype Date = Date(year: int, month: int, day: int)

  /** The fields of an OrderLeg that the symbol determines. */
  datatype OptionLeg = OptionLeg(root: string, expiry: Date, right: Right, strike: Decimal)

  const STRIKE_DIGITS := 8
  const DATE_DIGITS := 6
  const SUFFIX := DATE_DIGITS + 1 + STRIKE_DIGITS

  predicate IsUpper(c: char) {
    'A' <= c <= 'Z'
  }

  predicate IsDigit(c: char) {
    '0' <= c <= '9'
  }

  predicate IsRoot(s: string) {
    s != "" && IsUpper(s[0]) && forall i :: 1 <= i < |s| ==> IsUpper(s[i]) || IsDigit(s[i]) || s[i] == '.'
  }

  predicate AllDigits(s: string) {
    forall i :: 0 <= i < |s| ==> IsDigit(s[i])
  }

  /** The symbol's pattern, with the four parts it captures. */
  predicate Matches(symbol: string, root: string, date: string, right: string, strike: string) {
    && symbol == root + date + right + strike
    && IsRoot(root)
    && |date| == DATE_DIGITS && AllDigits(date)
    && (right == "C" || right == "P")
    && |strike| == STRIKE_DIGITS && AllDigits(strike)
  }

  function DigitValue(c: char): (n: nat)
    requires IsDigit(c)
    ensures n < 10
  {
    c as int - '0' as int
  }

  function Number(s: string): nat
    requires AllDigits(s)
  {
    if s == "" then 0 else 10 * Number(s[..|s| - 1]) + DigitValue(s[|s| - 1])
  }

  /** The last `width` decimal digits of n. */
  function Digits(n: nat, width: nat): (s: string)
    ensures |s| == width && AllDigits(s)
  {
    if width == 0 then "" else Digits(n / 10, width - 1) + [(n % 10 + '0' as int) as char]
  }

  predicate IsLeap(y: int) {
    y % 4 == 0 && (y % 100 != 0 || y % 400 == 0)
  }

  function DaysIn(y: int, m: int): int {
    if m == 2 then (if IsLeap(y) then 29 else 28)
    else if m == 4 || m == 6 || m == 9 || m == 11 then 30
    else 31
  }

  /** Two-digit years stand for 1969 to 2068. */
  function FullYear(yy: nat): int {
    if yy >= 69 then 1900 + yy else 2000 + yy
  }

  /** The days from 1 March of the year 0 to the first of a month, counting years from March on so
      that the leap day is a year's last. */
  function DaysBefore(y: int, m: int): int {
    YearStart(if m <= 2 then y - 1 else y) + (153 * ((m + 9) % 12) + 2) / 5
  }

  function YearStart(y: int): int {
    365 * y + y / 4 - y / 100 + y / 400
  }

  lemma OneMoreMultiple(y: int, n: int)
    requires n == 4 || n == 100 || n == 400
    ensures y / n - (y - 1) / n == if y % n == 0 then 1 else 0
  {
  }

  lemma YearLength(y: int)
    ensures YearStart(y) - YearStart(y - 1) == if IsLeap(y) then 366 else 365
  {
    OneMoreMultiple(y, 4);
    OneMoreMultiple(y, 100);
    OneMoreMultiple(y, 400);
  }

  /** A month is as long as the days from its first to the next month's first. */
  lemma MonthLength(y: int, m: int)
    requires 1 <= m <= 12
    ensures DaysIn(y, m) == (if m == 12 then DaysBefore(y + 1, 1) else DaysBefore(y, m + 1)) - DaysBefore(y, m)
  {
    YearLength(y);
    hide YearStart, IsLeap;
  }

  predicate IsDate(d: Date) {
    1969 <= d.year <= 2068 && 1 <= d.month <= 12 && 1 <= d.day <= DaysIn(d.year, d.month)
  }

  function ParseDate(s: string): (d: Option<Date>)
    requires |s| == DATE_DIGITS && AllDigits(s)
    ensures d.Some? ==> IsDate(d.value)
  {
    YearBound(s);
    var d := Date(FullYear(Number(s[..2])), Number(s[2..4]), Number(s[4..]));
    if 1 <= d.month <= 12 && 1 <= d.day <= DaysIn(d.year, d.month) then Some(d) else None
  }

  lemma YearBound(s: string)
    requires |s| == DATE_DIGITS && AllDigits(s)
    ensures Number(s[..2]) < 100
  {
    NumberBound(s[..2]);
    assert Pow10(2) == 100;
  }

  lemma {:induction false} NumberBound(s: string)
    requires AllDigits(s)
    ensures Number(s) < Pow10(|s|)
    decreases |s|
  {
    if s != "" {
      NumberBound(s[..|s| - 1]);
    }
  }

  function PrintDate(d: Date): (s: string)
    requires IsDate(d)
    ensures |s| == DATE_DIGITS && AllDigits(s)
  {
    Digits(d.year % 100, 2) + Digits(d.month, 2) + Digits(d.day, 2)
  }

  /** The leg a symbol stands for, or None if it is not one. The four parts can be cut out
      by position because all but the first have a fixed length. */
  function LegFromSymbol(symbol: string): Option<OptionLeg> {
    var n := |symbol| - SUFFIX;
    if n < 1 then None
    else
      var root, date := symbol[..n], symbol[n..n + DATE_DIGITS];
      var right, strike := symbol[n + DATE_DIGITS..n + DATE_DIGITS + 1], symbol[n + DATE_DIGITS + 1..];
      if !Matches(symbol, root, date, right, strike) then None
      else
        var expiry := ParseDate(date);
        if expiry.None? then None
        else Some(OptionLeg(root, expiry.value, if right == "P" then Put else Call, Decimal(Number(strike), -3)))
  }

  /** A leg that some symbol stands for. */
  predicate IsLeg(leg: OptionLeg) {
    IsRoot(leg.root) && IsDate(leg.expiry) && leg.strike.exp == -3 && 0 <= leg.strike.coeff < Pow10(STRIKE_DIGITS)
  }

  function PrintLeg(leg: OptionLeg): string
    requires IsLeg(leg)
  {
    leg.root + PrintDate(leg.expiry) + (if leg.right.Call? then "C" else "P") + Digits(leg.strike.coeff, STRIKE_DIGITS)
  }

  // ---------- the split is unique ----------

  /** The pattern matches in at most one way, also when the root holds digits, C or P: the
      parts behind the root are SUFFIX characters long in all. */
  lemma SplitIsUnique(symbol: string, root: string, date: string, right: string, strike: string)
    requires Matches(symbol, root, date, right, strike)
    ensures var n := |symbol| - SUFFIX;
      && n >= 1 && root == symbol[..n] && date == symbol[n..n + DATE_DIGITS]
      && right == symbol[n + DATE_DIGITS..n + DATE_DIGITS + 1] && strike == symbol[n + DATE_DIGITS + 1..]
  {
  }

  // ---------- digits and numbers ----------

  lemma {:induction false} DigitsOfNumber(s: string)
    requires AllDigits(s)
    ensures Digits(Number(s), |s|) == s
    decreases |s|
  {
    if s != "" {
      DigitsOfNumber(s[..|s| - 1]);
    }
  }

  lemma {:induction false} NumberOfDigits(n: nat, width: nat)
    requires n < Pow10(width)
    ensures Number(Digits(n, width)) == n
    decreases width
  {
    if width > 0 {
      NumberOfDigits(n / 10, width - 1);
      assert Digits(n, width)[..width - 1] == Digits(n / 10, width - 1);
    }
  }

  lemma PrintParsedDate(s: string)
    requires |s| == DATE_DIGITS && AllDigits(s) && ParseDate(s).Some?
    ensures PrintDate(ParseDate(s).value) == s
  {
    hide Digits, Number, DaysIn;
    DigitsOfNumber(s[..2]);
    DigitsOfNumber(s[2..4]);
    DigitsOfNumber(s[4..]);
    YearBound(s);
    assert s == s[..2] + s[2..4] + s[4..];
  }

  lemma ParsePrintedDate(d: Date)
    requires IsDate(d)
    ensures ParseDate(PrintDate(d)) == Some(d)
  {
    var s := PrintDate(d);
    assert Pow10(2) == 100 && FullYear(d.year % 100) == d.year && DaysIn(d.year, d.month) <= 31;
    hide Digits, Number, Pow10, DaysIn, FullYear;
    NumberOfDigits(d.year % 100, 2);
    NumberOfDigits(d.month, 2);
    NumberOfDigits(d.day, 2);
    assert s[..2] == Digits(d.year % 100, 2) && s[2..4] == Digits(d.month, 2) && s[4..] == Digits(d.day, 2);
  }

  /** Printing the leg of an accepted symbol gives the symbol back. */
  lemma PrintParsed(symbol: string)
    requires LegFromSymbol(symbol).Some?
    ensures IsLeg(LegFromSymbol(symbol).value) && PrintLeg(LegFromSymbol(symbol).value) == symbol
  {
    var n := |symbol| - SUFFIX;
    var date, strike := symbol[n..n + DATE_DIGITS], symbol[n + DATE_DIGITS + 1..];
    PrintParsedDate(date);
    DigitsOfNumber(strike);
    NumberBound(strike);
  }

  /** Every leg there can be is the one its printed symbol stands for. */
  lemma ParsePrinted(leg: OptionLeg)
    requires IsLeg(leg)
    ensures LegFromSymbol(PrintLeg(leg)) == Some(leg)
  {
    var symbol := PrintLeg(leg);
    var date, strike := PrintDate(leg.expiry), Digits(leg.strike.coeff, STRIKE_DIGITS);
    var right := if leg.right.Call? then "C" else "P";
    assert Matches(symbol, leg.root, date, right, strike);
    SplitIsUnique(symbol, leg.root, date, right, strike);
    ParsePrintedDate(leg.expiry);
    NumberOfDigits(leg.strike.coeff, STRIKE_DIGITS);
  }

  /** No two symbols stand for the same leg. */
  lemma LegFromSymbolInjective(a: string, b: string)
    requires LegFromSymbol(a).Some? && LegFromSymbol(a) == LegFromSymbol(b)
    ensures a == b
  {
    PrintParsed(a);
    PrintParsed(b);
  }

  function Digit(s: string, i: nat): int
    requires i < |s|
  {
    s[i] as int - '0' as int
  }

  lemma NumberStep(s: string, k: nat)
    requires AllDigits(s) && k < |s|
    ensures Number(s[..k + 1]) == 10 * Number(s[..k]) + Digit(s, k)
  {
    assert s[..k + 1][..k] == s[..k];
  }

  lemma TwoDigits(s: string)
    requires |s| == 2 && AllDigits(s)
    ensures Number(s) == 10 * Digit(s, 0) + Digit(s, 1)
  {
    NumberStep(s, 0);
    NumberStep(s, 1);
    assert s[..2] == s && s[..0] == "";
  }

  lemma EightDigits(s: string)
    requires |s| == 8 && AllDigits(s)
    ensures Number(s) ==
      10_000_000 * Digit(s, 0) + 1_000_000 * Digit(s, 1) + 100_000 * Digit(s, 2) + 10_000 * Digit(s, 3)
      + 1_000 * Digit(s, 4) + 100 * Digit(s, 5) + 10 * Digit(s, 6) + Digit(s, 7)
  {
    forall k | 0 <= k < 8
      ensures Number(s[..k + 1]) == 10 * Number(s[..k]) + Digit(s, k)
    {
      NumberStep(s, k);
    }
    assert Number(s[..1]) == Digit(s, 0) && Number(s[..2]) == 10 * Number(s[..1]) + Digit(s, 1);
    assert Number(s[..3]) == 10 * Number(s[..2]) + Digit(s, 2) && Number(s[..4]) == 10 * Number(s[..3]) + Digit(s, 3);
    assert Number(s[..5]) == 10 * Number(s[..4]) + Digit(s, 4) && Number(s[..6]) == 10 * Number(s[..5]) + Digit(s, 5);
    assert Number(s[..7]) == 10 * Number(s[..6]) + Digit(s, 6) && Number(s[..8]) == 10 * Number(s[..7]) + Digit(s, 7);
    assert s[..8] == s;
  }

  lemma UpperExactly(c: char)
    ensures IsUpper(c) <==> c in "ABCDEFGHIJKLMNOPQRSTUVWXYZ"
  {
    assert IsUpper(c) ==> "ABCDEFGHIJKLMNOPQRSTUVWXYZ"[c as int - 65] == c;
  }

  lemma DigitExactly(c: char)
    ensures IsDigit(c) <==> c in "0123456789"
  {
    assert IsDigit(c) ==> "0123456789"[c as int - 48] == c;
  }

  predicate RootChar(c: char) {
    c in "ABCDEFGHIJKLMNOPQRSTUVWXYZ" || c in "0123456789" || c == '.'
  }

  /** A root is capitals, digits and points, and begins with a capital. */
  lemma RootExactly(s: string)
    ensures IsRoot(s) <==>
      |s| >= 1 && s[0] in "ABCDEFGHIJKLMNOPQRSTUVWXYZ" && forall i :: 0 <= i < |s| ==> RootChar(s[i])
  {
    if s != "" {
      UpperExactly(s[0]);
    }
    forall i | 0 <= i < |s|
      ensures RootChar(s[i]) <==> IsUpper(s[i]) || IsDigit(s[i]) || s[i] == '.'
    {
      UpperExactly(s[i]);
      DigitExactly(s[i]);
    }
    hide RootChar, IsUpper, IsDigit;
  }

  /** What the leg of an accepted symbol says, digit by digit: C is a call and P a put, the two
      digits of the year stand for one from 1969 to 2068, and the strike is in thousandths. */
  lemma LegExactly(symbol: string, root: string, date: string, right: string, strike: string)
    requires Matches(symbol, root, date, right, strike) && LegFromSymbol(symbol).Some?
    ensures var leg := LegFromSymbol(symbol).value;
      && leg.root == root
      && 1969 <= leg.expiry.year <= 2068 && leg.expiry.year % 100 == 10 * Digit(date, 0) + Digit(date, 1)
      && leg.expiry.month == 10 * Digit(date, 2) + Digit(date, 3)
      && leg.expiry.day == 10 * Digit(date, 4) + Digit(date, 5)
      && (leg.right == Call <==> right == "C") && (leg.right == Put <==> right == "P")
      && leg.strike.exp == -3
      && leg.strike.coeff ==
           10_000_000 * Digit(strike, 0) + 1_000_000 * Digit(strike, 1) + 100_000 * Digit(strike, 2)
           + 10_000 * Digit(strike, 3) + 1_000 * Digit(strike, 4) + 100 * Digit(strike, 5) + 10 * Digit(strike, 6)
           + Digit(strike, 7)
  {
    SplitIsUnique(symbol, root, date, right, strike);
    TwoDigits(date[..2]);
    TwoDigits(date[2..4]);
    TwoDigits(date[4..]);
    EightDigits(strike);
    hide Number;
  }

  /** Accepted are exactly the symbols that match the pattern, in whatever way, with a date
      that exists. */
  lemma AcceptedExactly(symbol: string)
    ensures LegFromSymbol(symbol).Some? <==>
      exists root, date, right, strike :: Matches(symbol, root, date, right, strike) && ParseDate(date).Some?
  {
    var n := |symbol| - SUFFIX;
    if n >= 1 {
      var root, date := symbol[..n], symbol[n..n + DATE_DIGITS];
      var right, strike := symbol[n + DATE_DIGITS..n + DATE_DIGITS + 1], symbol[n + DATE_DIGITS + 1..];
      assert LegFromSymbol(symbol).Some? ==> Matches(symbol, root, date, right, strike) && ParseDate(date).Some?;
    }
    forall root, date, right, strike | Matches(symbol, root, date, right, strike)
      ensures LegFromSymbol(symbol).Some? <==> ParseDate(date).Some?
    {
      SplitIsUnique(symbol, root, date, right, strike);
    }
  }
}
