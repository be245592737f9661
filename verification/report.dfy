/** The computation inside each of the two tabs: the full listing with its
    percentage column, the totals, the mean rate, top 3 and bottom 3, and the
    values quoted in the narrative about the top 3. */
module Report {
  import opened Results
  import opened Seqs
  import opened Cells
  import opened Tables
  import opened Ranking
  import opened Summary

  /** How many rows the ranked tables show. */
  const RankSize: nat := 3

  /** A row of the full listing: the rate column replaced by its percentage. */
  datatype DisplayRow = DisplayRow(stt: Stt, name: string, base: int, part: int, percent: real)

  /** Everything a tab shows or exports. */
  datatype TabReport = TabReport(
    shown: seq<DisplayRow>,
    totalBase: int,
    totalPart: int,
    averagePercent: real,
    top: seq<Row>,
    bottom: seq<Row>,
    leaderName: string,
    leaderPercent: real,
    topFloorPercent: real)

  /** Why a tab shows no report: the loader raised, or there is no branch row
      for `top3.iloc[0]` to read. */
  datatype TabError = LoadFailed(cause: LoadError) | NoBranchRows

  /** A stored rate on the percentage scale: adoption rates are fractions and
      are multiplied by 100, late rates are percentages already. */
  function Percent(ds: Dataset, rate: real): (r: real)
    ensures ds == AppAdoption ==> r == 100.0 * rate
    ensures ds == OnTime ==> r == rate
  {
    match ds
    case AppAdoption => rate * 100.0
    case OnTime => rate
  }

  /** The listing table: branch rows followed by the company row. */
  function Display(ds: Dataset, rows: seq<Row>): (r: seq<DisplayRow>)
    ensures |r| == |rows|
    ensures forall i :: 0 <= i < |rows| ==>
              r[i] == DisplayRow(rows[i].stt, rows[i].name, rows[i].base, rows[i].part, Percent(ds, rows[i].rate))
  {
    seq(|rows|, i requires 0 <= i < |rows| =>
      DisplayRow(rows[i].stt, rows[i].name, rows[i].base, rows[i].part, Percent(ds, rows[i].rate)))
  }

  /** The tab body once the tables are loaded. */
  function Summarize(ds: Dataset, t: Tables): (r: Result<TabReport, TabError>)
    ensures r.Success? <==> |t.detail| > 0
    ensures r.Success? ==>
      && r.value.totalBase == SumBase(t.detail) + SumBase(t.aggregate)
      && r.value.totalPart == SumPart(t.detail) + SumPart(t.aggregate)
      && r.value.averagePercent == Percent(ds, MeanRate(t.detail).value)
      && |r.value.shown| == |t.detail| + |t.aggregate|
      && r.value.top == TopN(t.detail, RankSize)
      && r.value.bottom == BottomN(t.detail, RankSize)
  {
    var all := t.detail + t.aggregate;
    var average := MeanRate(t.detail);
    var top := TopN(t.detail, RankSize);
    SumsOfConcat(t.detail, t.aggregate);
    if |top| == 0 then
      Failure(NoBranchRows)
    else
      Success(TabReport(Display(ds, all), SumBase(all), SumPart(all), Percent(ds, average.value),
                        top, BottomN(t.detail, RankSize),
                        top[0].name, Percent(ds, top[0].rate), Percent(ds, MinRate(top))))
  }

  /** One tab from the parsed sheet to the report. */
  function Tab(ds: Dataset, raw: seq<RawRow>, p: Parsers): (r: Result<TabReport, TabError>)
    ensures r.Failure? && r.error.LoadFailed? <==> Load(ds, raw, p).Failure?
  {
    match Load(ds, raw, p)
    case Failure(e) => Failure(LoadFailed(e))
    case Success(t) => Summarize(ds, t)
  }

  /** The company row never appears in either ranked table, whatever its
      rate: ranking only sees the branch rows, none of which carries the marker. */
  lemma RankingExcludesCompanyRow(ds: Dataset, t: Tables)
    requires forall i :: 0 <= i < |t.detail| ==> !IsAggregateName(t.detail[i].name)
    ensures Summarize(ds, t).Success? ==> var rep := Summarize(ds, t).value;
      && (forall k :: 0 <= k < |rep.top| ==> rep.top[k] in t.detail && !IsAggregateName(rep.top[k].name))
      && (forall k :: 0 <= k < |rep.bottom| ==> rep.bottom[k] in t.detail && !IsAggregateName(rep.bottom[k].name))
  {
  }

  /** The same from the sheet: a loaded tab never ranks a row whose name
      carries the marker. */
  lemma TabRanksBranchesOnly(ds: Dataset, raw: seq<RawRow>, p: Parsers)
    ensures Tab(ds, raw, p).Success? ==> var rep := Tab(ds, raw, p).value;
      && (forall k :: 0 <= k < |rep.top| ==> !IsAggregateName(rep.top[k].name))
      && (forall k :: 0 <= k < |rep.bottom| ==> !IsAggregateName(rep.bottom[k].name))
  {
    if Load(ds, raw, p).Success? {
      RankingExcludesCompanyRow(ds, Load(ds, raw, p).value);
    }
  }

  /** Top 3 and bottom 3 hold `min(3, branch rows)` rows each, in rate order. */
  lemma RankedTablesShape(ds: Dataset, t: Tables)
    ensures Summarize(ds, t).Success? ==> var rep := Summarize(ds, t).value;
      && |rep.top| == Min(RankSize, |t.detail|) && |rep.bottom| == Min(RankSize, |t.detail|)
      && (forall j, k :: 0 <= j < k < |rep.top| ==> rep.top[j].rate >= rep.top[k].rate)
      && (forall j, k :: 0 <= j < k < |rep.bottom| ==> rep.bottom[j].rate <= rep.bottom[k].rate)
  {
  }

  /** The narrative is consistent: the named leader has the highest branch
      rate, and the quoted floor is the lowest top-3 rate, which every top-3
      row reaches. */
  lemma NarrativeHolds(ds: Dataset, t: Tables)
    requires |t.detail| > 0
    ensures var rep := Summarize(ds, t).value;
      && |rep.top| > 0
      && rep.leaderName == rep.top[0].name
      && rep.leaderPercent == Percent(ds, rep.top[0].rate)
      && (forall i :: 0 <= i < |t.detail| ==> t.detail[i].rate <= rep.top[0].rate)
      && (forall k :: 0 <= k < |rep.top| ==> rep.topFloorPercent <= Percent(ds, rep.top[k].rate))
      && (exists k :: 0 <= k < |rep.top| && rep.topFloorPercent == Percent(ds, rep.top[k].rate))
  {
    LeadersAreExtremes(t.detail, RankSize);
    var top := TopN(t.detail, RankSize);
    var m := MinRate(top);
    var k :| 0 <= k < |top| && top[k].rate == m;
    assert Percent(ds, m) == Percent(ds, top[k].rate);
  }

  /** The listing shows the branch rows, then the company row, each with its
      rate on the percentage scale: times 100 for adoption, unchanged for late rates. */
  lemma ListingIsBranchesThenCompany(ds: Dataset, t: Tables)
    requires |t.detail| > 0
    ensures var shown := Summarize(ds, t).value.shown;
      && (forall i :: 0 <= i < |t.detail| ==>
            shown[i].name == t.detail[i].name && shown[i].percent == Percent(ds, t.detail[i].rate))
      && (forall j :: 0 <= j < |t.aggregate| ==>
            shown[|t.detail| + j].name == t.aggregate[j].name &&
            shown[|t.detail| + j].percent == Percent(ds, t.aggregate[j].rate))
  {
    var all := t.detail + t.aggregate;
    var shown := Summarize(ds, t).value.shown;
    ListingRates(ds, t);
    forall i | 0 <= i < |t.detail|
      ensures shown[i].name == t.detail[i].name && shown[i].percent == Percent(ds, t.detail[i].rate)
    {
      assert all[i] == t.detail[i];
    }
    forall j | 0 <= j < |t.aggregate|
      ensures shown[|t.detail| + j].name == t.aggregate[j].name
      ensures shown[|t.detail| + j].percent == Percent(ds, t.aggregate[j].rate)
    {
      assert all[|t.detail| + j] == t.aggregate[j];
    }
  }

  /** The overview average lies between the smallest and the largest
      percentage of the branch rows in the listing. */
  lemma AverageWithinListedBranches(ds: Dataset, t: Tables)
    requires |t.detail| > 0
    ensures var rep := Summarize(ds, t).value;
      && (exists i :: 0 <= i < |t.detail| && rep.shown[i].percent <= rep.averagePercent)
      && (exists i :: 0 <= i < |t.detail| && rep.averagePercent <= rep.shown[i].percent)
  {
    var rep := Summarize(ds, t).value;
    var all := t.detail + t.aggregate;
    ListingRates(ds, t);
    LeadersAreExtremes(t.detail, RankSize);
    var lo := BottomN(t.detail, RankSize)[0];
    var hi := TopN(t.detail, RankSize)[0];
    var a :| 0 <= a < |t.detail| && t.detail[a] == lo;
    var b :| 0 <= b < |t.detail| && t.detail[b] == hi;
    MeanWithinBounds(t.detail, lo.rate, hi.rate);
    assert all[a] == lo && all[b] == hi;
    assert rep.shown[a].percent <= rep.averagePercent;
    assert rep.averagePercent <= rep.shown[b].percent;
  }

  lemma TabIsSummary(ds: Dataset, raw: seq<RawRow>, p: Parsers)
    requires Tab(ds, raw, p).Success?
    ensures Load(ds, raw, p).Success? && Tab(ds, raw, p) == Summarize(ds, Load(ds, raw, p).value)
  {
  }

  /** A numeric rate cell keeps its scale through to the listing: an
      adoption rate `x` is listed as `100 x`, a late rate `x` (whose rendering
      Python reads back as `x`) as `x`. Position `k` of the listing shows the
      `k`-th of the branch source rows followed by the company source rows. */
  lemma NumericRateScale(ds: Dataset, raw: seq<RawRow>, p: Parsers, x: real, k: int)
    requires Tab(ds, raw, p).Success?
    requires ds == OnTime ==> '%' !in p.render(x) && p.parseFloat(p.render(x)) == Some(x)
    requires 0 <= k < |DetailSource(raw) + AggregateSource(raw)|
    requires (DetailSource(raw) + AggregateSource(raw))[k].rate == Number(x)
    ensures |Tab(ds, raw, p).value.shown| == |DetailSource(raw) + AggregateSource(raw)|
    ensures Tab(ds, raw, p).value.shown[k].percent == if ds == AppAdoption then 100.0 * x else x
  {
    TabIsSummary(ds, raw, p);
    LoadedListingRate(ds, raw, p, x, k);
    ListingRates(ds, Load(ds, raw, p).value);
  }

  /** The listing shows the rows of `detail + aggregate` one for one. */
  lemma ListingRates(ds: Dataset, t: Tables)
    requires |t.detail| > 0
    ensures var shown, all := Summarize(ds, t).value.shown, t.detail + t.aggregate;
      && |shown| == |all|
      && forall k :: 0 <= k < |all| ==> shown[k].name == all[k].name && shown[k].percent == Percent(ds, all[k].rate)
  {
    assert Summarize(ds, t).value.shown == Display(ds, t.detail + t.aggregate);
  }

  /** When the company row carries the company-wide totals, the overview totals
      count every customer or request twice: once in the branch rows and once
      in the company row. */
  lemma TotalsCountCompanyRow(ds: Dataset, t: Tables)
    requires |t.detail| > 0 && |t.aggregate| == 1
    requires t.aggregate[0].base == SumBase(t.detail) && t.aggregate[0].part == SumPart(t.detail)
    ensures Summarize(ds, t).value.totalBase == 2 * SumBase(t.detail)
    ensures Summarize(ds, t).value.totalPart == 2 * SumPart(t.detail)
  {
    assert SumBase(t.aggregate) == t.aggregate[0].base + SumBase(t.aggregate[1..]);
    assert SumPart(t.aggregate) == t.aggregate[0].part + SumPart(t.aggregate[1..]);
  }

  /** The mean and both rankings depend on the branch rows alone: replacing
      the company rows, whatever their rates, changes none of them. */
  lemma CompanyRowDoesNotAffectRanking(ds: Dataset, detail: seq<Row>, a1: seq<Row>, a2: seq<Row>)
    requires |detail| > 0
    ensures var r1, r2 := Summarize(ds, Tables(detail, a1)).value, Summarize(ds, Tables(detail, a2)).value;
      && r1.averagePercent == r2.averagePercent
      && r1.top == r2.top && r1.bottom == r2.bottom
      && r1.leaderName == r2.leaderName && r1.topFloorPercent == r2.topFloorPercent
  {
  }
}
