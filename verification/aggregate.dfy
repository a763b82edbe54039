/** The date × sector aggregation of the sector charts: nest the rows by
    date and then by sector, sum `CapGain` per group, flatten the nest back
    into `{Date, Sector, CapGain}` records, split off the "SP500" reference
    rows and total the rest per day. */
module Aggregate {

  import opened Seqs
  import opened Nest
  import opened Records

  /** The pseudo-sector that carries the S&P 500 reference series. */
  const Sp500: string := "SP500"

  /** `{key, value}` of the inner nest level after the rollup. */
  datatype SectorEntry = SectorEntry(key: string, value: int)

  /** `{key, values}` of the outer nest level. */
  datatype DateEntry = DateEntry(key: string, values: seq<SectorEntry>)

  /** `{key, value}` of the per-day net rollup. */
  datatype NetEntry = NetEntry(key: string, value: int)

  /** `.rollup(v => d3.sum(v, d => d.CapGain))` on the sector buckets. */
  function RollupSectors(bs: seq<Bucket<string, Row>>): seq<SectorEntry>
  {
    seq(|bs|, i requires 0 <= i < |bs| => SectorEntry(bs[i].key, Total(bs[i].members, RowGain)))
  }

  /** `d3.nest().key(d => d.Date).key(d => d.Sector).rollup(sum).entries(data)`. */
  function NestDateSector(rows: seq<Row>): seq<DateEntry>
  {
    var gs := GroupBy(rows, RowDate);
    seq(|gs|, i requires 0 <= i < |gs| =>
      DateEntry(gs[i].key, RollupSectors(GroupBy(gs[i].members, RowSector))))
  }

  /** The records one outer entry contributes to the `flatMap`. */
  function EntryPoints(e: DateEntry): seq<Point>
  {
    seq(|e.values|, j requires 0 <= j < |e.values| => Point(e.key, e.values[j].key, e.values[j].value))
  }

  /** `nestedData.flatMap(date => date.values.map(sector => ({...})))`. */
  function Flatten(es: seq<DateEntry>): seq<Point>
  {
    if |es| == 0 then [] else Flatten(es[..|es| - 1]) + EntryPoints(es[|es| - 1])
  }

  // ----- Reference definition of the aggregated series -----

  /** The distinct dates of the rows, first seen first. */
  function DistinctDates(rows: seq<Row>): seq<string>
  {
    Dedup(Project(rows, RowDate))
  }

  /** The distinct sectors present on day `d`, first seen first. */
  function SectorsOn(rows: seq<Row>, d: string): seq<string>
  {
    Dedup(Project(Having(rows, RowDate, d), RowSector))
  }

  /** Sum of `CapGain` over the rows of day `d` and sector `s`. */
  function PairTotal(rows: seq<Row>, d: string, s: string): int
  {
    Total(Having(Having(rows, RowDate, d), RowSector, s), RowGain)
  }

  /** One point per sector of `ss` on day `d`, carrying its pair total. */
  function PointsFor(rows: seq<Row>, d: string, ss: seq<string>): seq<Point>
  {
    seq(|ss|, j requires 0 <= j < |ss| => Point(d, ss[j], PairTotal(rows, d, ss[j])))
  }

  function DayPoints(rows: seq<Row>, d: string): seq<Point>
  {
    PointsFor(rows, d, SectorsOn(rows, d))
  }

  function PointsOver(rows: seq<Row>, ds: seq<string>): seq<Point>
  {
    if |ds| == 0 then [] else PointsOver(rows, ds[..|ds| - 1]) + DayPoints(rows, ds[|ds| - 1])
  }

  /** The aggregated series as the chart means it: for each date in
      first-seen order, for each of that date's sectors in first-seen
      order, one point with the pair's summed `CapGain`. */
  function Aggregated(rows: seq<Row>): seq<Point>
  {
    PointsOver(rows, DistinctDates(rows))
  }

  // ----- The nest computes the reference series -----

  lemma EntryIsDay(rows: seq<Row>, i: nat)
    requires i < |NestDateSector(rows)|
    ensures |NestDateSector(rows)| == |DistinctDates(rows)|
    ensures EntryPoints(NestDateSector(rows)[i]) == DayPoints(rows, DistinctDates(rows)[i])
  {
    var gs := GroupBy(rows, RowDate);
    var d := DistinctDates(rows)[i];
    assert gs[i].key == d && gs[i].members == Having(rows, RowDate, d);
    var ss := GroupBy(gs[i].members, RowSector);
    assert Grouped(gs[i].members, RowSector, ss);
  }

  lemma NestLength(rows: seq<Row>)
    ensures |NestDateSector(rows)| == |DistinctDates(rows)|
  {
  }

  lemma {:induction false} FlattenMatches(rows: seq<Row>, es: seq<DateEntry>, ds: seq<string>)
    requires |es| == |ds|
    requires forall i :: 0 <= i < |es| ==> EntryPoints(es[i]) == DayPoints(rows, ds[i])
    ensures Flatten(es) == PointsOver(rows, ds)
  {
    if |es| > 0 {
      FlattenMatches(rows, es[..|es| - 1], ds[..|ds| - 1]);
    }
  }

  /** Nesting by date then sector and flattening yields exactly the
      reference series: same points, same order. */
  lemma FlattenNestIsAggregated(rows: seq<Row>)
    ensures Flatten(NestDateSector(rows)) == Aggregated(rows)
  {
    var es, ds := NestDateSector(rows), DistinctDates(rows);
    NestLength(rows);
    forall i | 0 <= i < |es|
      ensures EntryPoints(es[i]) == DayPoints(rows, ds[i])
    {
      EntryIsDay(rows, i);
    }
    FlattenMatches(rows, es, ds);
  }

  // ----- Properties of the aggregated series -----

  lemma PointsForMember(rows: seq<Row>, d: string, ss: seq<string>, p: Point)
    ensures p in PointsFor(rows, d, ss) <==>
      p.date == d && p.sector in ss && p.capGain == PairTotal(rows, d, p.sector)
  {
    var ps := PointsFor(rows, d, ss);
    if p.date == d && p.sector in ss && p.capGain == PairTotal(rows, d, p.sector) {
      var j :| 0 <= j < |ss| && ss[j] == p.sector;
      assert ps[j] == p;
    }
  }

  lemma {:induction false} PointsOverMember(rows: seq<Row>, ds: seq<string>, p: Point)
    ensures p in PointsOver(rows, ds) <==>
      p.date in ds && p.sector in SectorsOn(rows, p.date) && p.capGain == PairTotal(rows, p.date, p.sector)
  {
    if |ds| > 0 {
      var init, d := ds[..|ds| - 1], ds[|ds| - 1];
      assert ds == init + [d];
      PointsOverMember(rows, init, p);
      PointsForMember(rows, d, SectorsOn(rows, d), p);
      assert PointsOver(rows, ds) == PointsOver(rows, init) + DayPoints(rows, d);
    }
  }

  /** A point is in the series exactly when some row has its date and
      sector, and then it carries that pair's total. */
  lemma AggregatedMember(rows: seq<Row>, p: Point)
    ensures p in Aggregated(rows) <==>
      && (exists r :: r in rows && r.date == p.date && r.sector == p.sector)
      && p.capGain == PairTotal(rows, p.date, p.sector)
  {
    PointsOverMember(rows, DistinctDates(rows), p);
    ProjectMember(rows, RowDate, p.date);
    ProjectMember(Having(rows, RowDate, p.date), RowSector, p.sector);
  }

  ghost predicate PairsDistinct(ps: seq<Point>) {
    forall i, j :: 0 <= i < j < |ps| ==> ps[i].date != ps[j].date || ps[i].sector != ps[j].sector
  }

  lemma {:induction false} PointsOverDistinct(rows: seq<Row>, ds: seq<string>)
    requires Distinct(ds)
    ensures PairsDistinct(PointsOver(rows, ds))
    ensures forall i :: 0 <= i < |PointsOver(rows, ds)| ==> PointsOver(rows, ds)[i].date in ds
  {
    if |ds| > 0 {
      var init, d := ds[..|ds| - 1], ds[|ds| - 1];
      assert ds == init + [d];
      PointsOverDistinct(rows, init);
      var a: seq<Point> := PointsOver(rows, init);
      var ab: seq<Point> := PointsOver(rows, ds);
      assert ab == a + DayPoints(rows, d);
      assert d !in init;
      forall i, j | 0 <= i < j < |ab|
        ensures ab[i].date != ab[j].date || ab[i].sector != ab[j].sector
      {
        if j >= |a| && i < |a| {
          assert ab[i].date in init;
        }
      }
    }
  }

  /** No (date, sector) pair appears twice. */
  lemma AggregatedPairsDistinct(rows: seq<Row>)
    ensures PairsDistinct(Aggregated(rows))
  {
    PointsOverDistinct(rows, DistinctDates(rows));
  }

  lemma {:induction false} HavingPointsOver(rows: seq<Row>, ds: seq<string>, d: string)
    requires Distinct(ds)
    ensures Having(PointsOver(rows, ds), PointDate, d) == if d in ds then DayPoints(rows, d) else []
  {
    if |ds| > 0 {
      var init, e := ds[..|ds| - 1], ds[|ds| - 1];
      var a, b := PointsOver(rows, init), DayPoints(rows, e);
      assert ds == init + [e];
      assert PointsOver(rows, ds) == a + b;
      HavingPointsOver(rows, init, d);
      HavingConcat(a, b, PointDate, d);
      HavingUniform(b, PointDate, e, d);
    }
  }

  lemma {:induction false} TotalMatchesKeyTotals(f: seq<Row>, ps: seq<Point>, ss: seq<string>)
    requires |ps| == |ss|
    requires forall j :: 0 <= j < |ps| ==> ps[j].capGain == Total(Having(f, RowSector, ss[j]), RowGain)
    ensures Total(ps, PointGain) == KeyTotals(f, RowSector, RowGain, ss)
  {
    if |ps| > 0 {
      TotalMatchesKeyTotals(f, ps[..|ps| - 1], ss[..|ss| - 1]);
    }
  }

  lemma PointsForTotal(rows: seq<Row>, d: string, ss: seq<string>)
    ensures Total(PointsFor(rows, d, ss), PointGain)
         == KeyTotals(Having(rows, RowDate, d), RowSector, RowGain, ss)
  {
    TotalMatchesKeyTotals(Having(rows, RowDate, d), PointsFor(rows, d, ss), ss);
  }

  /** Conservation: on every day the flattened records add up to the same
      total as the raw rows of that day. */
  lemma AggregatedConservesDay(rows: seq<Row>, d: string)
    ensures Total(Having(Aggregated(rows), PointDate, d), PointGain) == Total(Having(rows, RowDate, d), RowGain)
  {
    HavingPointsOver(rows, DistinctDates(rows), d);
    if d in DistinctDates(rows) {
      PointsForTotal(rows, d, SectorsOn(rows, d));
      TotalByKeys(Having(rows, RowDate, d), RowSector, RowGain);
    } else {
      HavingEmpty(rows, RowDate, d);
    }
  }

  // ----- SP500 split and the per-day net rollup -----

  /** `cgSector = flattenedArray.filter(d => d.Sector !== "SP500")` and
      `sp500 = flattenedArray.filter(d => d.Sector === "SP500")`. */
  function SplitSp500(flat: seq<Point>): (r: (seq<Point>, seq<Point>))
    ensures forall p :: p in r.0 <==> p in flat && p.sector != Sp500
    ensures forall p :: p in r.1 <==> p in flat && p.sector == Sp500
    ensures multiset(r.0) + multiset(r.1) == multiset(flat)
    ensures Subsequence(r.0, flat) && Subsequence(r.1, flat)
  {
    HavingLackingPartition(flat, PointSector, Sp500);
    LackingIsSubsequence(flat, PointSector, Sp500);
    HavingIsSubsequence(flat, PointSector, Sp500);
    (Lacking(flat, PointSector, Sp500), Having(flat, PointSector, Sp500))
  }

  /** `d3.nest().key(d => d.Date).rollup(v => d3.sum(v, d => d.CapGain))`
      over the non-SP500 records: one entry per day they cover, first seen
      first, holding that day's total. */
  function NetByDate(points: seq<Point>): (r: seq<NetEntry>)
    ensures |r| == |Dedup(Project(points, PointDate))|
    ensures forall i :: 0 <= i < |r| ==>
      && r[i].key == Dedup(Project(points, PointDate))[i]
      && r[i].value == Total(Having(points, PointDate, r[i].key), PointGain)
  {
    var gs := GroupBy(points, PointDate);
    seq(|gs|, i requires 0 <= i < |gs| => NetEntry(gs[i].key, Total(gs[i].members, PointGain)))
  }

  lemma {:induction false} PointsForSector(rows: seq<Row>, d: string, ss: seq<string>, s: string)
    requires Distinct(ss)
    ensures Having(PointsFor(rows, d, ss), PointSector, s) == if s in ss then [Point(d, s, PairTotal(rows, d, s))] else []
  {
    if |ss| > 0 {
      var init := ss[..|ss| - 1];
      var last := Point(d, ss[|ss| - 1], PairTotal(rows, d, ss[|ss| - 1]));
      assert ss == init + [ss[|ss| - 1]];
      PointsForSector(rows, d, init, s);
      assert PointsFor(rows, d, ss) == PointsFor(rows, d, init) + [last];
      HavingSnoc(PointsFor(rows, d, init), last, PointSector, s);
    }
  }

  /** On each day the series holds at most one SP500 point, carrying the
      total of that day's SP500 rows. */
  lemma DaySectorTotal(rows: seq<Row>, d: string, s: string)
    ensures Total(Having(Having(Aggregated(rows), PointDate, d), PointSector, s), PointGain)
         == Total(Having(Having(rows, RowDate, d), RowSector, s), RowGain)
  {
    var f := Having(rows, RowDate, d);
    HavingPointsOver(rows, DistinctDates(rows), d);
    if d in DistinctDates(rows) {
      PointsForSector(rows, d, SectorsOn(rows, d), s);
      if s in SectorsOn(rows, d) {
        var one := [Point(d, s, PairTotal(rows, d, s))];
        assert one[..0] == [];
        assert Total(one, PointGain) == PairTotal(rows, d, s);
      } else {
        HavingEmpty(f, RowSector, s);
      }
    } else {
      HavingEmpty(rows, RowDate, d);
    }
  }

  /** A day's net value, computed from the flattened non-SP500 records,
      equals the sum of that day's raw rows outside the SP500 sector. */
  lemma NetMatchesRows(rows: seq<Row>, d: string)
    ensures Total(Having(SplitSp500(Aggregated(rows)).0, PointDate, d), PointGain)
         == Total(Lacking(Having(rows, RowDate, d), RowSector, Sp500), RowGain)
  {
    var agg := Aggregated(rows);
    var f := Having(rows, RowDate, d);
    var day := Having(agg, PointDate, d);
    HavingLackingCommute(agg, PointDate, d, PointSector, Sp500);
    assert Having(SplitSp500(agg).0, PointDate, d) == Lacking(day, PointSector, Sp500);
    AggregatedConservesDay(rows, d);
    DaySectorTotal(rows, d, Sp500);
    TotalPartition(day, PointSector, Sp500, PointGain);
    TotalPartition(f, RowSector, Sp500, RowGain);
  }
}
