/** What each chart script derives from its rows before drawing: the
    date × sector series and its SP500 split (test5, test6), the per-day
    net series (test6), the y-domain bounds, the slider's date list and
    frames, and the older scripts' single-date frame and labels (test2,
    app, app2, app3). Rows arrive with `CapGain` already a number; app,
    app2 and app3 keep it a string and apply `+` only where it is read. */
module Scripts {

  import opened Wrappers
  import opened Seqs
  import opened Rounding
  import opened Records
  import opened Aggregate
  import opened Bounds
  import opened Frames
  import opened Format

  function NetKey(e: NetEntry): string { e.key }
  function NetValue(e: NetEntry): int { e.value }

  /** `Math.abs(min) < max ? Math.abs(max) : Math.abs(min)` over the
      records' `CapGain`. */
  function GainBounds(ps: seq<Point>): (b: Option<nat>)
    ensures b.Some? <==> |ps| > 0
    ensures b.Some? ==> forall i :: 0 <= i < |ps| ==> -(b.value as int) <= ps[i].capGain <= b.value
    ensures b.Some? ==> exists i :: 0 <= i < |ps| && Abs(ps[i].capGain) == b.value
  {
    var gains := Project(ps, PointGain);
    var b := SymmetricBounds(gains);
    if b.Some? then
      var i :| 0 <= i < |gains| && Abs(gains[i]) == b.value;
      assert Abs(ps[i].capGain) == b.value;
      b
    else b
  }

  /** The same over the net series' values. */
  function NetBounds(es: seq<NetEntry>): (b: Option<nat>)
    ensures b.Some? <==> |es| > 0
    ensures b.Some? ==> forall i :: 0 <= i < |es| ==> -(b.value as int) <= es[i].value <= b.value
    ensures b.Some? ==> exists i :: 0 <= i < |es| && Abs(es[i].value) == b.value
  {
    var values := Project(es, NetValue);
    var b := SymmetricBounds(values);
    if b.Some? then
      var i :| 0 <= i < |values| && Abs(values[i]) == b.value;
      assert Abs(es[i].value) == b.value;
      b
    else b
  }

  /** The industry bound: the same over every row, times 0.1. */
  function IndustryBounds(rows: seq<Row>): (b: Option<real>)
    ensures b.Some? <==> |rows| > 0
    ensures b.Some? ==> forall i :: 0 <= i < |rows| ==> Abs(rows[i].capGain) as real * IndustryScale <= b.value
    ensures b.Some? ==> exists i :: 0 <= i < |rows| && Abs(rows[i].capGain) as real * IndustryScale == b.value
  {
    var gains := Project(rows, RowGain);
    var b := DampedBounds(gains);
    if b.Some? then
      var i :| 0 <= i < |gains| && Abs(gains[i]) as real * IndustryScale == b.value;
      assert Abs(rows[i].capGain) as real * IndustryScale == b.value;
      b
    else b
  }

  /** The older scripts' bound, |min CapGain| over every row (see
      `NegatedMaxBounds`). */
  function MinGainBounds(rows: seq<Row>): (b: Option<nat>)
    ensures b.Some? <==> |rows| > 0
    ensures b.Some? ==> forall i :: 0 <= i < |rows| ==> -(b.value as int) <= rows[i].capGain
    ensures b.Some? ==>
      (exists i :: 0 <= i < |rows| && b.value == Abs(rows[i].capGain) &&
        (forall j :: 0 <= j < |rows| ==> rows[i].capGain <= rows[j].capGain))
  {
    var gains := Project(rows, RowGain);
    var b := NegatedMaxBounds(gains);
    if b.Some? then
      var m := MinOf(gains);
      var i :| 0 <= i < |gains| && gains[i] == m;
      assert b.value == Abs(rows[i].capGain);
      assert forall j :: 0 <= j < |rows| ==> rows[i].capGain <= rows[j].capGain;
      b
    else b
  }

  // ----- test5: sector and industry charts with a date slider -----

  datatype SectorView = SectorView(
    uniqueDates: seq<string>,
    flattened: seq<Point>,
    cgSector: seq<Point>,
    sp500: seq<Point>,
    bounds: Option<nat>,
    boundsIndustry: Option<real>)

  /** The data-shaping part of test5 (and the first half of test6). */
  function SectorCharts(rows: seq<Row>): (v: SectorView)
    ensures v.uniqueDates == UniqueDates(rows)
    ensures Distinct(v.uniqueDates)
    ensures forall d :: d in v.uniqueDates <==> exists r :: r in rows && r.date == d
    ensures v.flattened == Aggregated(rows)
    ensures (v.cgSector, v.sp500) == SplitSp500(Aggregated(rows))
    ensures PairsDistinct(v.flattened)
    ensures forall p :: p in v.cgSector <==> p in v.flattened && p.sector != Sp500
    ensures forall p :: p in v.sp500 <==> p in v.flattened && p.sector == Sp500
    ensures multiset(v.cgSector) + multiset(v.sp500) == multiset(v.flattened)
    ensures Subsequence(v.cgSector, v.flattened) && Subsequence(v.sp500, v.flattened)
    ensures v.bounds.Some? <==> |v.cgSector| > 0
    ensures v.bounds.Some? ==> forall i :: 0 <= i < |v.cgSector| ==>
      -(v.bounds.value as int) <= v.cgSector[i].capGain <= v.bounds.value
    ensures v.bounds.Some? ==> exists i :: 0 <= i < |v.cgSector| && Abs(v.cgSector[i].capGain) == v.bounds.value
    ensures v.boundsIndustry.Some? <==> |rows| > 0
    ensures v.boundsIndustry.Some? ==> forall i :: 0 <= i < |rows| ==>
      Abs(rows[i].capGain) as real * IndustryScale <= v.boundsIndustry.value
    ensures v.boundsIndustry.Some? ==>
      (exists i :: 0 <= i < |rows| && Abs(rows[i].capGain) as real * IndustryScale == v.boundsIndustry.value)
  {
    FlattenNestIsAggregated(rows);
    AggregatedPairsDistinct(rows);
    var flat := Flatten(NestDateSector(rows));
    var split := SplitSp500(flat);
    SectorView(UniqueDates(rows), flat, split.0, split.1, GainBounds(split.0), IndustryBounds(rows))
  }

  /** The slider's two frames for position `i`: the sector records of
      `cgSector` and the industry rows of the `i`-th slider date, every copy
      of each, in input order. */
  function SectorSlide(rows: seq<Row>, cgSector: seq<Point>, i: int): (r: Option<(seq<Point>, seq<Row>)>)
    ensures r.Some? <==> 0 <= i < |UniqueDates(rows)|
    ensures r.Some? ==> forall p :: p in r.value.0 <==> p in cgSector && p.date == UniqueDates(rows)[i]
    ensures r.Some? ==> forall p :: multiset(r.value.0)[p] == if p.date == UniqueDates(rows)[i] then multiset(cgSector)[p] else 0
    ensures r.Some? ==> Subsequence(r.value.0, cgSector)
    ensures r.Some? ==> forall x :: x in r.value.1 <==> x in rows && x.date == UniqueDates(rows)[i]
    ensures r.Some? ==> forall x :: multiset(r.value.1)[x] == if x.date == UniqueDates(rows)[i] then multiset(rows)[x] else 0
    ensures r.Some? ==> Subsequence(r.value.1, rows)
    ensures r.Some? ==> |r.value.1| > 0
  {
    var dates := UniqueDates(rows);
    if 0 <= i < |dates| then
      FramesNonEmpty(rows, i);
      Some((Frame(cgSector, PointDate, dates, i).value, Frame(rows, RowDate, dates, i).value))
    else None
  }

  /** After a slide, the date shown is read from the first sector record
      of the frame; the frame holds one exactly when the day has a row
      outside the SP500 sector (otherwise that read throws). */
  lemma SectorFrameNonEmptyIff(rows: seq<Row>, i: int)
    requires 0 <= i < |UniqueDates(rows)|
    ensures |SectorSlide(rows, SectorCharts(rows).cgSector, i).value.0| > 0 <==>
      exists r :: r in rows && r.date == UniqueDates(rows)[i] && r.sector != Sp500
  {
    var cg := SectorCharts(rows).cgSector;
    assert cg == SplitSp500(Aggregated(rows)).0;
    var d := UniqueDates(rows)[i];
    var f := SectorSlide(rows, cg, i).value.0;
    if |f| > 0 {
      var p := f[0];
      assert p in f;
      AggregatedMember(rows, p);
    } else if r :| r in rows && r.date == d && r.sector != Sp500 {
      var p := Point(d, r.sector, PairTotal(rows, d, r.sector));
      AggregatedMember(rows, p);
    }
  }

  // ----- test6: test5 plus the per-day net series -----

  datatype NetView = NetView(cgNet: seq<NetEntry>, boundsNet: Option<nat>)

  /** `cgNet`: the non-SP500 records nested by date and summed. Each
      day's value is the total of that day's raw rows outside SP500. */
  function NetSeries(rows: seq<Row>): (net: seq<NetEntry>)
    ensures Project(net, NetKey) == Dedup(Project(SplitSp500(Aggregated(rows)).0, PointDate))
    ensures Distinct(Project(net, NetKey))
    ensures forall i :: 0 <= i < |net| ==>
      net[i].value == Total(Lacking(Having(rows, RowDate, net[i].key), RowSector, Sp500), RowGain)
  {
    var net := NetByDate(SplitSp500(Aggregated(rows)).0);
    forall i | 0 <= i < |net|
      ensures net[i].value == Total(Lacking(Having(rows, RowDate, net[i].key), RowSector, Sp500), RowGain)
    {
      NetMatchesRows(rows, net[i].key);
    }
    net
  }

  /** The part test6 adds to test5's data (`SectorCharts`): the net
      series `cgNet` and its bound `boundsNet`. Both depend only on the
      rows. */
  function NetCharts(rows: seq<Row>): (v: NetView)
    ensures Project(v.cgNet, NetKey) == Dedup(Project(SplitSp500(Aggregated(rows)).0, PointDate))
    ensures Distinct(Project(v.cgNet, NetKey))
    ensures forall i :: 0 <= i < |v.cgNet| ==>
      v.cgNet[i].value == Total(Lacking(Having(rows, RowDate, v.cgNet[i].key), RowSector, Sp500), RowGain)
    ensures v.boundsNet.Some? <==> |v.cgNet| > 0
    ensures v.boundsNet.Some? ==> forall i :: 0 <= i < |v.cgNet| ==>
      -(v.boundsNet.value as int) <= v.cgNet[i].value <= v.boundsNet.value
    ensures v.boundsNet.Some? ==> exists i :: 0 <= i < |v.cgNet| && Abs(v.cgNet[i].value) == v.boundsNet.value
  {
    var net := NetSeries(rows);
    NetView(net, NetBounds(net))
  }

  /** The net series has an entry for exactly the days that have a row
      outside the SP500 sector. */
  lemma NetCoversDays(rows: seq<Row>, d: string)
    ensures d in Project(NetCharts(rows).cgNet, NetKey) <==>
      exists r :: r in rows && r.date == d && r.sector != Sp500
  {
    var cg := SplitSp500(Aggregated(rows)).0;
    assert Project(NetCharts(rows).cgNet, NetKey) == Dedup(Project(cg, PointDate));
    ProjectMember(cg, PointDate, d);
    if p :| p in cg && p.date == d {
      AggregatedMember(rows, p);
    } else if r :| r in rows && r.date == d && r.sector != Sp500 {
      var p := Point(d, r.sector, PairTotal(rows, d, r.sector));
      AggregatedMember(rows, p);
    }
  }

  // ----- test2: one sector chart, slider over Date objects -----

  datatype ObjectSliderView = ObjectSliderView(sliderMax: int, bounds: Option<nat>)

  function ObjectSliderChart(rows: seq<Row>): (v: ObjectSliderView)
    ensures v.sliderMax == |rows| - 1
    ensures v.bounds.Some? <==> |rows| > 0
    ensures v.bounds.Some? ==> forall i :: 0 <= i < |rows| ==> -(v.bounds.value as int) <= rows[i].capGain
    ensures v.bounds.Some? ==>
      (exists i :: 0 <= i < |rows| && v.bounds.value == Abs(rows[i].capGain) &&
        (forall j :: 0 <= j < |rows| ==> rows[i].capGain <= rows[j].capGain))
  {
    ObjectSliderView(SliderMax(ObjectSetDates(rows)), MinGainBounds(rows))
  }

  // ----- app3, app2, app: one fixed date -----

  const App3Date: string := "2023-02-15"
  const App2Date: string := "2023-01-17"
  const AppDate: string := "2023-01-04"

  datatype DayView = DayView(newData: seq<Row>, labels: seq<string>, bounds: Option<nat>)

  function MillionsLabel(r: Row): string
  {
    FormatMagnitude(r.capGain, "M").value
  }

  /** `d3.map(newData, d => formatNum(+d.CapGain, "M"))`: one label per
      row, in row order, each reading back as that row's magnitude in
      millions rounded half up. */
  function MillionsLabels(day: seq<Row>): (labels: seq<string>)
    ensures |labels| == |day|
    ensures forall i :: 0 <= i < |labels| ==> ParseLabel(labels[i]).Some?
    ensures forall i :: 0 <= i < |labels| ==>
      var l := ParseLabel(labels[i]).value;
      && !l.negative && l.unit == 'M'
      && -(Million as int) <= 2 * Abs(day[i].capGain) - 2 * l.amount * Million < Million
  {
    Project(day, MillionsLabel)
  }

  /** app3: the rows of 2023-02-15, a "$…M" label per row, and the bound
      taken over every row. */
  function App3Chart(rows: seq<Row>): (v: DayView)
    ensures forall x :: x in v.newData <==> x in rows && x.date == App3Date
    ensures forall x :: multiset(v.newData)[x] == if x.date == App3Date then multiset(rows)[x] else 0
    ensures Subsequence(v.newData, rows)
    ensures |v.labels| == |v.newData|
    ensures forall i :: 0 <= i < |v.labels| ==> ParseLabel(v.labels[i]).Some?
    ensures forall i :: 0 <= i < |v.labels| ==>
      var l := ParseLabel(v.labels[i]).value;
      && !l.negative && l.unit == 'M'
      && -(Million as int) <= 2 * Abs(v.newData[i].capGain) - 2 * l.amount * Million < Million
    ensures v.bounds.Some? <==> |rows| > 0
    ensures v.bounds.Some? ==> forall i :: 0 <= i < |rows| ==> -(v.bounds.value as int) <= rows[i].capGain
    ensures v.bounds.Some? ==>
      (exists i :: 0 <= i < |rows| && v.bounds.value == Abs(rows[i].capGain) &&
        (forall j :: 0 <= j < |rows| ==> rows[i].capGain <= rows[j].capGain))
  {
    var day := FixedDateFrame(rows, App3Date);
    DayView(day, MillionsLabels(day), MinGainBounds(rows))
  }

  /** app2: the rows of 2023-01-17 and the bound over every row. */
  function App2Chart(rows: seq<Row>): (v: DayView)
    ensures forall x :: x in v.newData <==> x in rows && x.date == App2Date
    ensures forall x :: multiset(v.newData)[x] == if x.date == App2Date then multiset(rows)[x] else 0
    ensures Subsequence(v.newData, rows)
    ensures v.labels == []
    ensures v.bounds.Some? <==> |rows| > 0
    ensures v.bounds.Some? ==> forall i :: 0 <= i < |rows| ==> -(v.bounds.value as int) <= rows[i].capGain
    ensures v.bounds.Some? ==>
      (exists i :: 0 <= i < |rows| && v.bounds.value == Abs(rows[i].capGain) &&
        (forall j :: 0 <= j < |rows| ==> rows[i].capGain <= rows[j].capGain))
  {
    DayView(FixedDateFrame(rows, App2Date), [], MinGainBounds(rows))
  }

  /** app: the rows of 2023-01-04, and the bound from a minimum and a
      maximum the caller supplies. */
  function AppChart(rows: seq<Row>, min: int, max: int): (v: DayView)
    ensures forall x :: x in v.newData <==> x in rows && x.date == AppDate
    ensures forall x :: multiset(v.newData)[x] == if x.date == AppDate then multiset(rows)[x] else 0
    ensures Subsequence(v.newData, rows)
    ensures v.labels == []
    ensures v.bounds.Some?
    ensures min <= max ==> v.bounds.value == Max(Abs(min), Abs(max))
    ensures min <= max ==> -(v.bounds.value as int) <= min && max <= v.bounds.value
  {
    DayView(FixedDateFrame(rows, AppDate), [], Some(BoundsExpr(min, max)))
  }
}
