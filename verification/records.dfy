/** The records the chart scripts work on: CSV rows as loaded, rows after
    `CapGain` is coerced to a number, and the aggregated points the nest
    step produces. Dates are kept as their `YYYY-MM-DD` key strings. */
module Records {

  import opened Wrappers
  import opened Decimal

  /** A CSV row as `d3.csv` delivers it: every column a string. */
  datatype RawRow = RawRow(date: string, sector: string, industry: string, capGain: string)

  /** A row after `d.CapGain = +d.CapGain`, amounts in whole dollars. */
  datatype Row = Row(date: string, sector: string, industry: string, capGain: int)

  /** One flattened `{Date, Sector, CapGain}` record of the date × sector nest. */
  datatype Point = Point(date: string, sector: string, capGain: int)

  function RowDate(r: Row): string { r.date }
  function RowSector(r: Row): string { r.sector }
  function RowGain(r: Row): int { r.capGain }
  function PointDate(p: Point): string { p.date }
  function PointSector(p: Point): string { p.sector }
  function PointGain(p: Point): int { p.capGain }

  /** `+s` on an optionally negative whole-number string. */
  function ParseCapGain(s: string): Option<int>
  {
    if 2 <= |s| && s[0] == '-' && AllDigits(s[1..]) then Some(0 - ValueOf(s[1..]))
    else if 1 <= |s| && AllDigits(s) then Some(ValueOf(s))
    else None
  }

  /** The way a whole-dollar amount is written in the CSV files. */
  function ShowCapGain(n: int): string
  {
    if n < 0 then "-" + Digits(-n) else Digits(n)
  }

  /** Coercion reads back every amount exactly as it was written. */
  lemma ParseCapGainRoundTrip(n: int)
    ensures ParseCapGain(ShowCapGain(n)) == Some(n)
  {
    if n < 0 {
      DigitsRoundTrip(-n);
      assert ShowCapGain(n)[1..] == Digits(-n);
    } else {
      DigitsRoundTrip(n);
    }
  }

  /** `data.forEach(d => { d.CapGain = +d.CapGain })`: every row keeps its
      place and its other columns; only the amount changes type. A row whose
      amount is not a whole number makes the whole batch `None`, where the
      script would carry a `NaN`. */
  function CoerceRows(raws: seq<RawRow>): (r: Option<seq<Row>>)
    ensures r.Some? <==> forall i :: 0 <= i < |raws| ==> ParseCapGain(raws[i].capGain).Some?
    ensures r.Some? ==> |r.value| == |raws|
    ensures r.Some? ==> forall i :: 0 <= i < |raws| ==>
      && r.value[i].date == raws[i].date
      && r.value[i].sector == raws[i].sector
      && r.value[i].industry == raws[i].industry
      && ParseCapGain(raws[i].capGain) == Some(r.value[i].capGain)
  {
    if |raws| == 0 then Some([])
    else
      var last := raws[|raws| - 1];
      match CoerceRows(raws[..|raws| - 1])
      case None => None
      case Some(init) =>
        match ParseCapGain(last.capGain)
        case None => None
        case Some(v) => Some(init + [Row(last.date, last.sector, last.industry, v)])
  }
}
