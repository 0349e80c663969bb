// Canonical market lines as decimal strings, and the split of Asian quarter lines.

module Lines {

  datatype Option<+T> = None | Some(value: T)

  // ---------------------------------------------------------------- digits

  predicate IsDigit(c: char) {
    '0' <= c <= '9'
  }

  predicate AllDigits(s: string) {
    |s| > 0 && forall i :: 0 <= i < |s| ==> IsDigit(s[i])
  }

  function DigitChar(d: nat): (c: char)
    requires d < 10
    ensures IsDigit(c)
  {
    '0' + d as char
  }

  function DigitValue(c: char): (d: nat)
    requires IsDigit(c)
    ensures d < 10
  {
    c as int - '0' as int
  }

  function Digits(s: string): nat
    requires forall i :: 0 <= i < |s| ==> IsDigit(s[i])
  {
    if |s| == 0 then 0
    else 10 * Digits(s[..|s| - 1]) + DigitValue(s[|s| - 1])
  }

  function NatToString(n: nat): (s: string)
    ensures AllDigits(s)
  {
    if n < 10 then [DigitChar(n)] else NatToString(n / 10) + [DigitChar(n % 10)]
  }

  lemma {:induction false} NatRoundTrip(n: nat)
    ensures Digits(NatToString(n)) == n
  {
    var s := NatToString(n);
    if n < 10 {
      assert s[..0] == [];
    } else {
      NatRoundTrip(n / 10);
      assert s[..|s| - 1] == NatToString(n / 10);
    }
  }

  function Pow10(k: nat): (p: real)
    ensures p > 0.0
  {
    if k == 0 then 1.0 else 10.0 * Pow10(k - 1)
  }

  // The first position of c, or |s|.
  function IndexOf(s: string, c: char): (i: nat)
    ensures i <= |s| && (i < |s| ==> s[i] == c) && forall k :: 0 <= k < i ==> s[k] != c
  {
    if |s| == 0 || s[0] == c then 0 else 1 + IndexOf(s[1..], c)
  }

  // ---------------------------------------------------------------- parsing

  // The number written whole.fraction.
  function Decimal(whole: string, fraction: string): real
    requires AllDigits(whole) && AllDigits(fraction)
  {
    Digits(whole) as real + Digits(fraction) as real / Pow10(|fraction|)
  }

  // digits, or digits "." digits
  function ParseUnsigned(s: string): Option<real> {
    if AllDigits(s) then Some(Digits(s) as real)
    else
      var dot := IndexOf(s, '.');
      if dot < |s| && AllDigits(s[..dot]) && AllDigits(s[dot + 1..]) then
        Some(Decimal(s[..dot], s[dot + 1..]))
      else None
  }

  function ParseCanonicalLine(s: string): Option<real> {
    if |s| > 0 && s[0] == '-' then
      match ParseUnsigned(s[1..])
      case None => None
      case Some(v) => Some(-v)
    else ParseUnsigned(s)
  }

  // ---------------------------------------------------------------- formatting

  // Rounds half up.
  function Round(x: real): int {
    (x + 0.5).Floor
  }

  function AbsInt(n: int): nat {
    if n < 0 then -n else n
  }

  function IntToString(n: int): string {
    if n < 0 then "-" + NatToString(-n) else NatToString(n)
  }

  // Two decimals, always printed.
  function ToFixed2(cents: int): string {
    var n := AbsInt(cents);
    (if cents < 0 then "-" else "") + NatToString(n / 100) + "." + [DigitChar(n % 100 / 10), DigitChar(n % 10)]
  }

  function StripTrailing(s: string, c: char): string {
    if |s| > 0 && s[|s| - 1] == c then StripTrailing(s[..|s| - 1], c) else s
  }

  function StripDot(s: string): string {
    if |s| > 0 && s[|s| - 1] == '.' then s[..|s| - 1] else s
  }

  function FormatLine(value: real): string {
    var cents := Round(value * 100.0);
    if cents % 100 == 0 then IntToString(cents / 100)
    else
      var formatted := StripDot(StripTrailing(ToFixed2(cents), '0'));
      if formatted == "-0" then "0" else formatted
  }

  lemma RoundOfCents(cents: int)
    ensures Round(cents as real / 100.0 * 100.0) == cents
  {
    assert cents as real / 100.0 * 100.0 == cents as real;
  }

  // What ToFixed2 looks like once trailing zeros are gone, for a fraction that is not 0.
  function Trimmed(cents: int): string {
    var n := AbsInt(cents);
    (if cents < 0 then "-" else "") + NatToString(n / 100) + "."
    + if n % 10 == 0 then [DigitChar(n % 100 / 10)] else [DigitChar(n % 100 / 10), DigitChar(n % 10)]
  }

  lemma TrimmedIs(cents: int)
    requires cents % 100 != 0
    ensures StripDot(StripTrailing(ToFixed2(cents), '0')) == Trimmed(cents)
  {
    var s, n := ToFixed2(cents), AbsInt(cents);
    assert n % 100 != 0;
    if n % 10 == 0 {
      assert s[|s| - 1] == '0';
      var s' := s[..|s| - 1];
      assert s' == Trimmed(cents);
      assert s'[|s'| - 1] == DigitChar(n % 100 / 10) != '0';
    } else {
      assert s[|s| - 1] == DigitChar(n % 10) != '0';
    }
  }

  lemma ParseDecimal(whole: string, fraction: string)
    requires AllDigits(whole) && AllDigits(fraction)
    ensures ParseUnsigned(whole + "." + fraction) == Some(Decimal(whole, fraction))
  {
    var s := whole + "." + fraction;
    assert s[|whole|] == '.';
    var dot := IndexOf(s, '.');
    forall k | 0 <= k < |whole| ensures s[k] != '.' {
      assert s[k] == whole[k];
    }
    assert dot == |whole|;
    assert s[..dot] == whole && s[dot + 1..] == fraction;
  }

  lemma OnePlace(n: nat, whole: nat, digit: nat)
    requires n == 100 * whole + 10 * digit
    ensures whole as real + digit as real / 10.0 == n as real / 100.0
  {
  }

  lemma TwoPlaces(n: nat, whole: nat, digits: nat)
    requires n == 100 * whole + digits
    ensures whole as real + digits as real / 100.0 == n as real / 100.0
  {
  }

  lemma DecimalIs(whole: string, fraction: string, w: nat, f: nat)
    requires AllDigits(whole) && AllDigits(fraction) && 1 <= |fraction| <= 2
    requires Digits(whole) == w && Digits(fraction) == f
    ensures Decimal(whole, fraction) == w as real + if |fraction| == 1 then f as real / 10.0 else f as real / 100.0
  {
    assert Pow10(0) == 1.0 && Pow10(1) == 10.0 && Pow10(2) == 100.0;
  }

  lemma DecimalOfCents(n: nat, fraction: string)
    requires AllDigits(fraction)
    requires || (|fraction| == 1 && Digits(fraction) * 10 == n % 100)
             || (|fraction| == 2 && Digits(fraction) == n % 100)
    ensures Decimal(NatToString(n / 100), fraction) == n as real / 100.0
  {
    var whole, digits := n / 100, Digits(fraction);
    NatRoundTrip(whole);
    DecimalIs(NatToString(whole), fraction, whole, digits);
    if |fraction| == 1 {
      OnePlace(n, whole, digits);
    } else {
      TwoPlaces(n, whole, digits);
    }
  }

  lemma TwoDigits(tens: nat, ones: nat)
    requires tens < 10 && ones < 10
    ensures Digits([DigitChar(tens)]) == tens
    ensures Digits([DigitChar(tens), DigitChar(ones)]) == 10 * tens + ones
  {
    assert [DigitChar(tens)][..0] == [];
    assert [DigitChar(tens), DigitChar(ones)][..1] == [DigitChar(tens)];
  }

  lemma UniqueRemainder(n: nat, q: nat, r: nat)
    requires n == 10 * q + r && r < 10
    ensures n % 10 == r
  {
    assert n / 10 == q;
  }

  lemma LastDigits(n: nat, tens: nat, ones: nat)
    requires tens == n % 100 / 10 && ones == n % 10
    ensures n % 100 == 10 * tens + ones && tens < 10
  {
    var hundreds, rest := n / 100, n % 100;
    assert n == 100 * hundreds + rest;
    UniqueRemainder(n, 10 * hundreds + rest / 10, rest % 10);
  }

  lemma ParseTrimmed(n: nat)
    requires n % 100 != 0
    ensures ParseUnsigned(Trimmed(n)) == Some(n as real / 100.0)
  {
    var tens, ones := n % 100 / 10, n % 10;
    TwoDigits(tens, ones);
    LastDigits(n, tens, ones);
    var fraction := if ones == 0 then [DigitChar(tens)] else [DigitChar(tens), DigitChar(ones)];
    DecimalOfCents(n, fraction);
    ParseDecimal(NatToString(n / 100), fraction);
    assert Trimmed(n) == NatToString(n / 100) + "." + fraction;
  }

  lemma WholeRoundTrip(cents: int)
    requires cents % 100 == 0
    ensures ParseCanonicalLine(IntToString(cents / 100)) == Some(cents as real / 100.0)
  {
    var n := AbsInt(cents / 100);
    var s := NatToString(n);
    NatRoundTrip(n);
    assert s[0] != '-';
    assert ("-" + s)[1..] == s;
    assert (cents / 100) as real == cents as real / 100.0;
  }

  lemma TrimmedStart(n: nat)
    requires n % 100 != 0
    ensures |Trimmed(n)| >= 3 && Trimmed(n)[0] != '-'
  {
    assert Trimmed(n)[0] == NatToString(n / 100)[0];
  }

  lemma NegatedParse(s: string)
    requires ParseUnsigned(s).Some?
    ensures ParseCanonicalLine("-" + s) == Some(-ParseUnsigned(s).value)
  {
    assert ("-" + s)[1..] == s;
  }

  lemma TrimmedRoundTrip(cents: int)
    requires cents % 100 != 0
    ensures ParseCanonicalLine(Trimmed(cents)) == Some(cents as real / 100.0) && Trimmed(cents) != "-0"
  {
    var n := AbsInt(cents);
    ParseTrimmed(n);
    TrimmedStart(n);
    if cents < 0 {
      NegatedParse(Trimmed(n));
      assert Trimmed(cents) == "-" + Trimmed(n);
    }
  }

  // Every amount of cents, printed, parses back to itself.
  lemma FormatRoundTrip(cents: int)
    ensures ParseCanonicalLine(FormatLine(cents as real / 100.0)) == Some(cents as real / 100.0)
  {
    RoundOfCents(cents);
    if cents % 100 == 0 {
      WholeRoundTrip(cents);
    } else {
      TrimmedIs(cents);
      TrimmedRoundTrip(cents);
    }
  }

  // ---------------------------------------------------------------- Asian lines

  datatype LineKind = Whole | Half | Quarter

  function KindOf(value: real): LineKind {
    if value == value.Floor as real then Whole
    else
      var fractional := Round(value * 100.0) % 100;
      if fractional == 25 || fractional == 75 then Quarter else Half
  }

  // The component lines as numbers: a quarter line's two neighbours, or the line itself.
  function Components(value: real): (vs: seq<real>)
    ensures 1 <= |vs| <= 2
  {
    if KindOf(value) != Quarter then [value]
    else
      var cents := Round(value * 100.0);
      [(cents - 25) as real / 100.0, (cents + 25) as real / 100.0]
  }

  // The component lines as strings; a line that does not split keeps its spelling.
  function SplitAsianLine(line: string): Option<seq<string>> {
    match ParseCanonicalLine(line)
    case None => None
    case Some(value) =>
      var vs := Components(value);
      if |vs| == 1 then Some([line]) else Some([FormatLine(vs[0]), FormatLine(vs[1])])
  }

  lemma PrintedBack(value: real, cents: int)
    requires value == cents as real / 100.0
    ensures ParseCanonicalLine(FormatLine(value)) == Some(value)
  {
    FormatRoundTrip(cents);
  }

  lemma ComponentCents(value: real, i: nat) returns (cents: int)
    requires |Components(value)| == 2 && i < 2
    ensures Components(value)[i] == cents as real / 100.0
  {
    cents := Round(value * 100.0) + if i == 0 then -25 else 25;
  }

  lemma ComponentRoundTrip(value: real, i: nat)
    requires |Components(value)| == 2 && i < 2
    ensures ParseCanonicalLine(FormatLine(Components(value)[i])) == Some(Components(value)[i])
  {
    var cents := ComponentCents(value, i);
    PrintedBack(Components(value)[i], cents);
  }

  // The printed component lines parse back to the component values.
  lemma SplitParsesBack(line: string)
    requires ParseCanonicalLine(line).Some?
    ensures SplitAsianLine(line).Some?
    ensures var (value, lines) := (ParseCanonicalLine(line).value, SplitAsianLine(line).value);
            && |lines| == |Components(value)|
            && forall i :: 0 <= i < |lines| ==> ParseCanonicalLine(lines[i]) == Some(Components(value)[i])
  {
    var value := ParseCanonicalLine(line).value;
    if |Components(value)| == 2 {
      ComponentRoundTrip(value, 0);
      ComponentRoundTrip(value, 1);
    }
  }

  // A quarter line of two decimals splits into the line minus and plus a quarter.
  lemma QuarterSplit(cents: int)
    requires cents % 100 == 25 || cents % 100 == 75
    ensures var value := cents as real / 100.0;
            KindOf(value) == Quarter && Components(value) == [value - 0.25, value + 0.25]
  {
    RoundOfCents(cents);
    var value := cents as real / 100.0;
    var floor := value.Floor;
    assert floor * 100 != cents;
    assert value != floor as real;
  }

  // A line's two neighbours, or the line itself.
  ghost predicate SplitAround(values: seq<real>, value: real, quarter: bool) {
    values == if quarter then [value - 0.25, value + 0.25] else [value]
  }

  // The components of any line of two decimals.
  lemma CentsComponents(cents: int, value: real, quarter: bool)
    requires value == cents as real / 100.0 && quarter == (cents % 100 == 25 || cents % 100 == 75)
    ensures SplitAround(Components(value), value, quarter)
  {
    RoundOfCents(cents);
    if quarter {
      QuarterSplit(cents);
    }
  }

  function Ceil(x: real): int {
    -((-x).Floor)
  }

  function AbsReal(x: real): real {
    if x < 0.0 then -x else x
  }

  // Two components, one of them whole (at n) and the other half a unit away from it.
  ghost predicate WholeAndHalf(vs: seq<real>, n: int) {
    vs == [n as real, n as real + 0.5] || vs == [n as real - 0.5, n as real]
  }

  // No component lies beyond the ceiling of the line, and the two components of a quarter
  // line are a whole and a half line half a unit apart.
  lemma ComponentsShape(value: real) returns (n: int)
    ensures forall i :: 0 <= i < |Components(value)| ==> AbsReal(Components(value)[i]) <= Ceil(AbsReal(value)) as real
    ensures |Components(value)| == 2 ==> WholeAndHalf(Components(value), n)
  {
    n := 0;
    if KindOf(value) == Quarter {
      var cents := Round(value * 100.0);
      var below := cents / 100;
      QuarterBound(value, cents, below);
      n := if cents % 100 == 25 then below else below + 1;
      assert cents == 100 * below + cents % 100;
    } else {
      assert AbsReal(value) <= Ceil(AbsReal(value)) as real;
    }
  }

  lemma QuarterBound(value: real, cents: int, n: int)
    requires cents == Round(value * 100.0) && 100 * n < cents < 100 * n + 100
    requires cents == 100 * n + 25 || cents == 100 * n + 75
    ensures n >= 0 ==> Ceil(AbsReal(value)) == n + 1
    ensures n < 0 ==> Ceil(AbsReal(value)) == -n
  {
    assert n as real < value < (n + 1) as real;
    if n >= 0 {
      assert -((n + 1) as real) < -value < -(n as real);
      assert (-value).Floor == -(n + 1);
    } else {
      assert value.Floor == n;
    }
  }
}
