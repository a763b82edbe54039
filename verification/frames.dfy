/** The date slider: the list of dates it steps through and the frame, the
    records of one date, that each slider position shows. Also the older
    scripts' single fixed-date frame. */
module Frames {

  import opened Wrappers
  import opened Seqs
  import opened Records

  /** `[...new Set(data.map(d => d.Date))]` taken while dates are still
      strings: the distinct dates, first seen first. */
  function UniqueDates(rows: seq<Row>): (r: seq<string>)
    ensures Distinct(r)
    ensures forall d :: d in r <==> exists row :: row in rows && row.date == d
  {
    forall d ensures d in Project(rows, RowDate) <==> exists row :: row in rows && row.date == d {
      ProjectMember(rows, RowDate, d);
    }
    Dedup(Project(rows, RowDate))
  }

  /** The slider's `max` attribute, `uniqueDates.length - 1`. */
  function SliderMax<D>(dates: seq<D>): int
  {
    |dates| - 1
  }

  /** `series.filter(d => d.Date.getTime() === uniqueDates[i].getTime())`:
      the records of the `i`-th date. An index past the list makes
      `uniqueDates[i]` undefined and the call throws: `None`. */
  function Frame<T(!new)>(series: seq<T>, date: T -> string, dates: seq<string>, i: int): (r: Option<seq<T>>)
    ensures r.Some? <==> 0 <= i < |dates|
    ensures r.Some? ==> forall x :: x in r.value <==> x in series && date(x) == dates[i]
    ensures r.Some? ==> forall x :: multiset(r.value)[x] == if date(x) == dates[i] then multiset(series)[x] else 0
    ensures r.Some? ==> Subsequence(r.value, series)
  {
    if 0 <= i < |dates| then
      HavingIsSubsequence(series, date, dates[i]);
      HavingCounts(series, date, dates[i]);
      Some(Having(series, date, dates[i]))
    else None
  }

  /** Every slider position, `0 .. SliderMax`, shows at least one row. */
  lemma FramesNonEmpty(rows: seq<Row>, i: int)
    requires 0 <= i <= SliderMax(UniqueDates(rows))
    ensures |Frame(rows, RowDate, UniqueDates(rows), i).value| > 0
  {
    var d := UniqueDates(rows)[i];
    assert d in UniqueDates(rows);
    var row :| row in rows && row.date == d;
    assert row in Frame(rows, RowDate, UniqueDates(rows), i).value;
  }

  /** Two slider positions never show the same row. */
  lemma FramesDisjoint(rows: seq<Row>, i: int, j: int)
    requires 0 <= i < |UniqueDates(rows)| && 0 <= j < |UniqueDates(rows)| && i != j
    ensures forall x :: x in Frame(rows, RowDate, UniqueDates(rows), i).value ==>
      x !in Frame(rows, RowDate, UniqueDates(rows), j).value
  {
  }

  /** Every row is shown at some slider position. */
  lemma FramesCover(rows: seq<Row>)
    ensures forall x :: x in rows ==>
      exists i :: 0 <= i < |UniqueDates(rows)| && x in Frame(rows, RowDate, UniqueDates(rows), i).value
  {
    var ds := UniqueDates(rows);
    forall x | x in rows
      ensures exists i :: 0 <= i < |ds| && x in Frame(rows, RowDate, ds, i).value
    {
      assert x.date in ds;
      var i :| 0 <= i < |ds| && ds[i] == x.date;
      assert x in Frame(rows, RowDate, ds, i).value;
    }
  }

  /** The slider steps through the dates in the order the data first
      mentions them. */
  lemma UniqueDatesFirstSeen(rows: seq<Row>)
    ensures forall i, j :: 0 <= i < j < |UniqueDates(rows)| ==>
      FirstIndex(Project(rows, RowDate), UniqueDates(rows)[i]) < FirstIndex(Project(rows, RowDate), UniqueDates(rows)[j])
  {
    DedupFirstSeen(Project(rows, RowDate));
  }

  // ----- Dates held as objects (test2) -----

  /** A `Date` object: its identity (the row that created it) and the
      calendar day it denotes. A `Set` compares objects by identity. */
  datatype DateObject = DateObject(id: nat, day: string)

  /** `d.Date = parseDate(d.Date)` for every row: one fresh object each. */
  function ParsedDates(rows: seq<Row>): seq<DateObject>
  {
    seq(|rows|, i requires 0 <= i < |rows| => DateObject(i, rows[i].date))
  }

  /** `[...new Set(data.map(d => d.Date))]` taken after the dates became
      objects: no two objects are the same, so nothing collapses and the
      list has one entry per row, each naming that row's day. */
  function ObjectSetDates(rows: seq<Row>): (r: seq<DateObject>)
    ensures |r| == |rows|
    ensures forall i :: 0 <= i < |r| ==> r[i].day == rows[i].date
  {
    DedupOfDistinct(ParsedDates(rows));
    Dedup(ParsedDates(rows))
  }

  function ObjectDay(o: DateObject): string { o.day }

  /** test2's slider frame: the rows on the same day as the `i`-th date
      object, which is row `i`'s own day; so the frame always contains
      row `i`. */
  function ObjectFrame(rows: seq<Row>, i: int): (r: Option<seq<Row>>)
    ensures r.Some? <==> 0 <= i < |rows|
    ensures r.Some? ==> rows[i] in r.value
    ensures r.Some? ==> forall x :: x in r.value <==> x in rows && x.date == rows[i].date
    ensures r.Some? ==> forall x :: multiset(r.value)[x] == if x.date == rows[i].date then multiset(rows)[x] else 0
    ensures r.Some? ==> Subsequence(r.value, rows)
  {
    Frame(rows, RowDate, Project(ObjectSetDates(rows), ObjectDay), i)
  }

  /** With two rows of one day the object-based slider has two positions
      that show the same frame, where the string-based list has one. */
  lemma ObjectSliderRepeatsDays()
    ensures var rows := [Row("2023-01-04", "Energy", "", 1), Row("2023-01-04", "Tech", "", 2)];
      && SliderMax(ObjectSetDates(rows)) == 1
      && SliderMax(UniqueDates(rows)) == 0
      && ObjectFrame(rows, 0) == ObjectFrame(rows, 1)
  {
    var rows := [Row("2023-01-04", "Energy", "", 1), Row("2023-01-04", "Tech", "", 2)];
    var u := UniqueDates(rows);
    assert rows[0] in rows;
    assert "2023-01-04" in u;
    forall k | 0 <= k < |u| ensures u[k] == "2023-01-04" {
      assert u[k] in u;
    }
    assert |u| == 1 by {
      if |u| > 1 {
        assert false;
      }
    }
  }

  // ----- A single fixed date (app, app2, app3) -----

  /** `data.filter(d => d.Date === date)`: exactly the rows of that date,
      every copy of each, in input order. */
  function FixedDateFrame(rows: seq<Row>, date: string): (r: seq<Row>)
    ensures forall x :: x in r <==> x in rows && x.date == date
    ensures forall x :: multiset(r)[x] == if x.date == date then multiset(rows)[x] else 0
    ensures Subsequence(r, rows)
  {
    HavingIsSubsequence(rows, RowDate, date);
    HavingCounts(rows, RowDate, date);
    Having(rows, RowDate, date)
  }
}
