/** `formatNum`: a whole-dollar amount shown as an abbreviated currency
    label such as "$1,234M" or "-$3B", and a reader for such labels that
    serves as its inverse. */
module Format {

  import opened Wrappers
  import opened Decimal
  import opened Rounding

  const Million: nat := 1_000_000
  const Billion: nat := 1_000_000_000

  /** en-US grouping of a whole number, as `Intl.NumberFormat('en-US')`
      prints it with no fraction digits: a comma before every group of
      three digits counted from the right. */
  function GroupDigits(n: nat): (s: string)
    ensures 0 < |s|
    ensures forall i :: 0 <= i < |s| ==> IsDigit(s[i]) || s[i] == ','
  {
    if n < 1000 then Digits(n) else GroupDigits(n / 1000) + "," + Pad3(n % 1000)
  }

  /** Reads a comma-grouped numeral as `GroupDigits` writes it: a first
      group of one to three digits with no leading zero (unless it is "0"
      alone), then any number of ",ddd" groups, where a first group
      followed by more must be non-zero. Anything else is rejected. */
  function ParseGrouped(s: string): Option<nat>
    decreases |s|
  {
    if |s| == 0 then None
    else if |s| <= 3 then (if Canonical(s) then Some(ValueOf(s)) else None)
    else if s[|s| - 4] == ',' && AllDigits(s[|s| - 3..]) then
      match ParseGrouped(s[..|s| - 4])
      case None => None
      case Some(h) => if h == 0 then None else Some(h * 1000 + ValueOf(s[|s| - 3..]))
    else None
  }

  /** Grouping loses nothing: the grouped numeral reads back as `n`. */
  lemma {:induction false} GroupDigitsRoundTrip(n: nat)
    ensures ParseGrouped(GroupDigits(n)) == Some(n)
  {
    if n < 1000 {
      DigitsRoundTrip(n);
    } else {
      GroupDigitsRoundTrip(n / 1000);
      var h := GroupDigits(n / 1000);
      var s := GroupDigits(n);
      assert s == h + "," + Pad3(n % 1000);
      assert s[..|s| - 4] == h;
      assert s[|s| - 3..] == Pad3(n % 1000);
    }
  }

  /** The reader accepts nothing but `GroupDigits` text: whatever it reads
      as `n` is exactly the grouping of `n`. */
  lemma {:induction false} ParseGroupedCanonical(s: string, n: nat)
    requires ParseGrouped(s) == Some(n)
    ensures s == GroupDigits(n)
    decreases |s|
  {
    if |s| <= 3 {
      CanonicalIsDigits(s);
      ValueOfBound(s);
      assert Pow10(|s|) <= 1000 by {
        assert Pow10(0) == 1 && Pow10(1) == 10 && Pow10(2) == 100 && Pow10(3) == 1000;
      }
    } else {
      var p, t := s[..|s| - 4], s[|s| - 3..];
      var h := ParseGrouped(p).value;
      ParseGroupedCanonical(p, h);
      Pad3Unique(t);
      assert n == h * 1000 + ValueOf(t);
      assert n / 1000 == h && n % 1000 == ValueOf(t);
      assert s == p + "," + t;
    }
  }

  /** What a label says: its sign marker, its whole amount and its unit letter. */
  datatype Label = Label(negative: bool, amount: nat, unit: char)

  /** Size of one unit of `format`, or `None` for an unknown format. */
  function UnitSize(format: string): (u: Option<nat>)
    ensures u.Some? <==> format == "M" || format == "B"
    ensures u.Some? ==> u.value > 0
  {
    if format == "B" then Some(Billion)
    else if format == "M" then Some(Million)
    else None
  }

  /** Reads a label "$<grouped>U" or "-$<grouped>U" with U in {M, B}. */
  function ParseLabel(s: string): Option<Label>
  {
    if 2 <= |s| && s[0] == '-' && s[1] == '$' then ParseAmount(true, s[2..])
    else if 1 <= |s| && s[0] == '$' then ParseAmount(false, s[1..])
    else None
  }

  function ParseAmount(negative: bool, t: string): Option<Label>
  {
    if |t| < 2 || (t[|t| - 1] != 'M' && t[|t| - 1] != 'B') then None
    else
      match ParseGrouped(t[..|t| - 1])
      case None => None
      case Some(n) => Some(Label(negative, n, t[|t| - 1]))
  }

  /** The label text for a rounded amount, a sign flag and a unit. */
  function Render(negative: bool, amount: nat, format: string): string
  {
    (if negative then "-$" else "$") + GroupDigits(amount) + format
  }

  lemma RenderReadsBack(negative: bool, amount: nat, format: string)
    requires format == "M" || format == "B"
    ensures ParseLabel(Render(negative, amount, format)) == Some(Label(negative, amount, format[0]))
    ensures !negative ==> forall i :: 0 <= i < |Render(negative, amount, format)| ==>
      Render(negative, amount, format)[i] != '-'
  {
    var g := GroupDigits(amount);
    var s := Render(negative, amount, format);
    var t := g + format;
    ParseAmountReadsBack(negative, amount, format);
    if negative {
      assert s == "-$" + t;
      assert s[2..] == t;
    } else {
      assert s == "$" + t;
      assert s[1..] == t;
      RenderPositiveNoMinus(amount, format);
    }
  }

  lemma ParseAmountReadsBack(negative: bool, amount: nat, format: string)
    requires format == "M" || format == "B"
    ensures ParseAmount(negative, GroupDigits(amount) + format) == Some(Label(negative, amount, format[0]))
  {
    var t := GroupDigits(amount) + format;
    GroupDigitsRoundTrip(amount);
    assert t[..|t| - 1] == GroupDigits(amount);
  }

  lemma RenderPositiveNoMinus(amount: nat, format: string)
    requires format == "M" || format == "B"
    ensures forall i :: 0 <= i < |Render(false, amount, format)| ==> Render(false, amount, format)[i] != '-'
  {
    var g := GroupDigits(amount);
    var s := Render(false, amount, format);
    assert s == "$" + g + format;
    forall i | 0 <= i < |s|
      ensures s[i] != '-'
    {
      if 0 < i < 1 + |g| {
        assert s[i] == g[i - 1];
      }
    }
  }

  /** The reader accepts only rendered labels: a label that reads as
      (sign, amount, unit) is exactly the rendering of those three. */
  lemma ParseLabelCanonical(s: string)
    requires ParseLabel(s).Some?
    ensures var l := ParseLabel(s).value; s == Render(l.negative, l.amount, [l.unit])
  {
    var l := ParseLabel(s).value;
    var k := if l.negative then 2 else 1;
    var t := s[k..];
    var g := t[..|t| - 1];
    ParseGroupedCanonical(g, l.amount);
    assert t == g + [l.unit];
    assert s == s[..k] + t;
  }

  /** `formatNum(value, format, neg)` (the three-argument form): the
      magnitude of `value` in millions ("M") or billions ("B"), rounded to
      the nearest whole unit with halves going up, comma-grouped, prefixed
      with "-$" when `neg` is truthy and "$" otherwise. Any other format
      falls off the end of the function: `undefined`, here `None`. */
  function FormatNum(value: int, format: string, neg: bool): (r: Option<string>)
    ensures r.Some? <==> format == "M" || format == "B"
    ensures r.Some? ==>
      ParseLabel(r.value).Some? &&
      var l := ParseLabel(r.value).value;
      var u: int := UnitSize(format).value;
      && l.negative == neg
      && l.unit == format[0]
      && -u <= 2 * Abs(value) - 2 * l.amount * u < u
    ensures r.Some? && !neg ==> forall i :: 0 <= i < |r.value| ==> r.value[i] != '-'
  {
    match UnitSize(format)
    case None => None
    case Some(u) =>
      var amount := RoundDiv(Abs(value), u);
      RenderReadsBack(neg, amount, format);
      assert ParseLabel(Render(neg, amount, format)).value.amount == amount;
      Some(Render(neg, amount, format))
  }

  /** The label depends on the magnitude only: the sign of `value` never
      shows; only `neg` can put a minus in front. */
  lemma FormatNumIgnoresSign(value: int, format: string, neg: bool)
    ensures FormatNum(-value, format, neg) == FormatNum(value, format, neg)
  {
  }

  /** `formatNum(value, format)` (the two-argument form): the same label
      with no way to show a sign. It never contains a minus. */
  function FormatMagnitude(value: int, format: string): (r: Option<string>)
    ensures r.Some? <==> format == "M" || format == "B"
    ensures r.Some? ==>
      ParseLabel(r.value).Some? &&
      var l := ParseLabel(r.value).value;
      var u: int := UnitSize(format).value;
      && !l.negative
      && l.unit == format[0]
      && -u <= 2 * Abs(value) - 2 * l.amount * u < u
    ensures r.Some? ==> forall i :: 0 <= i < |r.value| ==> r.value[i] != '-'
  {
    match UnitSize(format)
    case None => None
    case Some(u) =>
      var amount := RoundDiv(Abs(value), u);
      RenderReadsBack(false, amount, format);
      assert ParseLabel(Render(false, amount, format)).value.amount == amount;
      Some("$" + GroupDigits(amount) + format)
  }

  /** The contract of `FormatNum` fixes its text: any label that reads back
      with the promised sign, unit and rounded amount is the result. */
  lemma FormatNumPinned(value: int, format: string, neg: bool, s: string)
    requires format == "M" || format == "B"
    requires ParseLabel(s).Some?
    requires var l := ParseLabel(s).value;
      var u: int := UnitSize(format).value;
      && l.negative == neg
      && l.unit == format[0]
      && -u <= 2 * Abs(value) - 2 * l.amount * u < u
    ensures FormatNum(value, format, neg) == Some(s)
  {
    var l := ParseLabel(s).value;
    RoundDivUnique(Abs(value), UnitSize(format).value, l.amount);
    ParseLabelCanonical(s);
    assert [l.unit] == format;
  }

  /** The same for the two-argument form. */
  lemma FormatMagnitudePinned(value: int, format: string, s: string)
    requires format == "M" || format == "B"
    requires ParseLabel(s).Some?
    requires var l := ParseLabel(s).value;
      var u: int := UnitSize(format).value;
      && !l.negative
      && l.unit == format[0]
      && -u <= 2 * Abs(value) - 2 * l.amount * u < u
    ensures FormatMagnitude(value, format) == Some(s)
  {
    var l := ParseLabel(s).value;
    RoundDivUnique(Abs(value), UnitSize(format).value, l.amount);
    ParseLabelCanonical(s);
    assert [l.unit] == format;
  }
}
