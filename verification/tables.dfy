/** The loaders `load_app_data` and `load_time_data`: drop rows without a
    branch name, split off the company ("công ty") rows, and coerce columns. */
module Tables {
  import opened Results
  import opened Seqs
  import opened Text
  import opened Cells

  /** The two report templates. The adoption rate is a 0-1 fraction; the late
      rate is already on the 0-100 percentage scale, possibly with a `%` sign. */
  datatype Dataset = AppAdoption | OnTime

  /** A row as read from the sheet. `name` is the branch ("Điện lực") cell as
      text, None where it is empty. `base` is the managed-customer count or the
      forwarded-request count, `part` the app-adopter count or the late count. */
  datatype RawRow = RawRow(stt: Cell, name: Option<string>, base: Cell, part: Cell, rate: Cell)

  /** The sequence number ("STT") after loading: converted to int, or left as read. */
  datatype Stt = Coerced(n: int) | Kept(cell: Cell)

  /** A row after loading. */
  datatype Row = Row(stt: Stt, name: string, base: int, part: int, rate: real)

  datatype Part = DetailPart | AggregatePart
  datatype Column = SttColumn | BaseColumn | PartColumn | RateColumn

  /** The order in which the loader converts the columns. */
  function ColumnOrder(col: Column): nat {
    match col
    case SttColumn => 0
    case BaseColumn => 1
    case PartColumn => 2
    case RateColumn => 3
  }

  /** The conversion error pandas raises, identified by table and column. */
  datatype LoadError = CoercionFailed(part: Part, column: Column)

  /** The loader's two outputs: per-branch rows and the company-wide rows. */
  datatype Tables = Tables(detail: seq<Row>, aggregate: seq<Row>)

  /** The marker of a company-wide row, compared after trimming and lower-casing. */
  const Marker: string := "công ty"

  /** `astype(str).str.strip().str.lower().str.contains('công ty')`. */
  predicate IsAggregateName(name: string) {
    Contains(Lower(Trim(name)), Marker)
  }

  /** Stripping a name first never changes whether it is a company name. */
  lemma AggregateNameIgnoresStrip(name: string)
    ensures IsAggregateName(Trim(name)) <==> IsAggregateName(name)
  {
    TrimIdempotent(name);
  }

  predicate Named(r: RawRow) {
    r.name.Some?
  }

  predicate IsAggregateRow(r: RawRow) {
    r.name.Some? && IsAggregateName(r.name.value)
  }

  predicate IsDetailRow(r: RawRow) {
    r.name.Some? && !IsAggregateName(r.name.value)
  }

  /** Whether loading converts the STT column of this table: the on-time loader
      leaves the STT of the company row untouched. */
  predicate CoercesStt(ds: Dataset, part: Part) {
    !(ds == OnTime && part == AggregatePart)
  }

  /** How the rate column of each template is read. */
  function RateOf(ds: Dataset, c: Cell, p: Parsers): Option<real> {
    match ds
    case AppAdoption => AsFloat(c, p)
    case OnTime => PercentRate(c, p)
  }

  /** The cell of `r` in column `col`. */
  function CellAt(r: RawRow, col: Column): Cell {
    match col
    case SttColumn => r.stt
    case BaseColumn => r.base
    case PartColumn => r.part
    case RateColumn => r.rate
  }

  /** Column `col` of row `r` converts (or is not converted at all). */
  predicate CellConverts(ds: Dataset, part: Part, col: Column, r: RawRow, p: Parsers) {
    match col
    case SttColumn => !CoercesStt(ds, part) || AsInt(r.stt, p).Some?
    case BaseColumn => AsInt(r.base, p).Some?
    case PartColumn => AsInt(r.part, p).Some?
    case RateColumn => RateOf(ds, r.rate, p).Some?
  }

  predicate RowConverts(ds: Dataset, part: Part, r: RawRow, p: Parsers) {
    forall col :: CellConverts(ds, part, col, r, p)
  }

  /** `row` is what loading makes of the named raw row `raw`, field by field. */
  predicate Loaded(ds: Dataset, part: Part, raw: RawRow, row: Row, p: Parsers) {
    && raw.name == Some(row.name)
    && (if CoercesStt(ds, part) then row.stt.Coerced? && AsInt(raw.stt, p) == Some(row.stt.n)
        else row.stt == Kept(raw.stt))
    && AsInt(raw.base, p) == Some(row.base)
    && AsInt(raw.part, p) == Some(row.part)
    && RateOf(ds, raw.rate, p) == Some(row.rate)
  }

  /** `astype(int)` of column `col`: every converted value, or None if any cell fails. */
  function IntColumn(rows: seq<RawRow>, col: Column, p: Parsers): (r: Option<seq<int>>)
    ensures r.Some? <==> forall i :: 0 <= i < |rows| ==> AsInt(CellAt(rows[i], col), p).Some?
    ensures r.Some? ==> |r.value| == |rows| &&
                        forall i :: 0 <= i < |rows| ==> AsInt(CellAt(rows[i], col), p) == Some(r.value[i])
  {
    if |rows| == 0 then Some([])
    else
      match AsInt(CellAt(rows[0], col), p)
      case None => None
      case Some(n) =>
        match IntColumn(rows[1..], col, p)
        case None => None
        case Some(ns) => Some([n] + ns)
  }

  /** The rate column converted the template's way, or None if any cell fails. */
  function RateValues(ds: Dataset, rows: seq<RawRow>, p: Parsers): (r: Option<seq<real>>)
    ensures r.Some? <==> forall i :: 0 <= i < |rows| ==> RateOf(ds, rows[i].rate, p).Some?
    ensures r.Some? ==> |r.value| == |rows| &&
                        forall i :: 0 <= i < |rows| ==> RateOf(ds, rows[i].rate, p) == Some(r.value[i])
  {
    if |rows| == 0 then Some([])
    else
      match RateOf(ds, rows[0].rate, p)
      case None => None
      case Some(x) =>
        match RateValues(ds, rows[1..], p)
        case None => None
        case Some(xs) => Some([x] + xs)
  }

  /** The STT column: converted where the loader converts it, otherwise a placeholder. */
  function SttValues(ds: Dataset, part: Part, rows: seq<RawRow>, p: Parsers): (r: Option<seq<int>>)
    ensures r.Some? <==> forall i :: 0 <= i < |rows| ==> CellConverts(ds, part, SttColumn, rows[i], p)
    ensures r.Some? ==> |r.value| == |rows|
    ensures r.Some? && CoercesStt(ds, part) ==>
              forall i :: 0 <= i < |rows| ==> AsInt(rows[i].stt, p) == Some(r.value[i])
  {
    if CoercesStt(ds, part) then IntColumn(rows, SttColumn, p) else Some(seq(|rows|, i => 0))
  }

  function Assemble(ds: Dataset, part: Part, rows: seq<RawRow>,
                    stt: seq<int>, base: seq<int>, prt: seq<int>, rate: seq<real>): (out: seq<Row>)
    requires forall i :: 0 <= i < |rows| ==> rows[i].name.Some?
    requires |stt| == |base| == |prt| == |rate| == |rows|
    ensures |out| == |rows|
    ensures forall i :: 0 <= i < |rows| ==>
              && out[i].name == rows[i].name.value
              && out[i].stt == (if CoercesStt(ds, part) then Coerced(stt[i]) else Kept(rows[i].stt))
              && out[i].base == base[i] && out[i].part == prt[i] && out[i].rate == rate[i]
  {
    seq(|rows|, i requires 0 <= i < |rows| =>
      Row(if CoercesStt(ds, part) then Coerced(stt[i]) else Kept(rows[i].stt),
          rows[i].name.value, base[i], prt[i], rate[i]))
  }

  lemma ConvertsWhenColumnsDo(ds: Dataset, part: Part, r: RawRow, p: Parsers)
    requires CellConverts(ds, part, SttColumn, r, p)
    requires AsInt(r.base, p).Some? && AsInt(r.part, p).Some? && RateOf(ds, r.rate, p).Some?
    ensures RowConverts(ds, part, r, p)
  {
    forall col ensures CellConverts(ds, part, col, r, p) {
    }
  }

  lemma NotEveryRowConverts(ds: Dataset, part: Part, rows: seq<RawRow>, col: Column, p: Parsers)
    requires exists i :: 0 <= i < |rows| && !CellConverts(ds, part, col, rows[i], p)
    ensures !forall i :: 0 <= i < |rows| ==> RowConverts(ds, part, rows[i], p)
  {
    var i :| 0 <= i < |rows| && !CellConverts(ds, part, col, rows[i], p);
    assert !RowConverts(ds, part, rows[i], p);
  }

  /** Converts one table column by column, STT first, as the loops over
      column names do; the first column with a bad cell names the error. */
  function CoerceTable(ds: Dataset, part: Part, rows: seq<RawRow>, p: Parsers): (r: Result<seq<Row>, LoadError>)
    requires forall i :: 0 <= i < |rows| ==> rows[i].name.Some?
    ensures r.Success? <==> forall i :: 0 <= i < |rows| ==> RowConverts(ds, part, rows[i], p)
    ensures r.Success? ==> |r.value| == |rows| &&
                           forall i :: 0 <= i < |rows| ==> Loaded(ds, part, rows[i], r.value[i], p)
    ensures r.Failure? ==> r.error.part == part &&
                           exists i :: 0 <= i < |rows| && !CellConverts(ds, part, r.error.column, rows[i], p)
    ensures r.Failure? ==> forall col, i :: ColumnOrder(col) < ColumnOrder(r.error.column) && 0 <= i < |rows| ==>
                             CellConverts(ds, part, col, rows[i], p)
  {
    var stt := SttValues(ds, part, rows, p);
    var base := IntColumn(rows, BaseColumn, p);
    var prt := IntColumn(rows, PartColumn, p);
    var rate := RateValues(ds, rows, p);
    if stt.None? then
      NotEveryRowConverts(ds, part, rows, SttColumn, p);
      Failure(CoercionFailed(part, SttColumn))
    else if base.None? then
      NotEveryRowConverts(ds, part, rows, BaseColumn, p);
      Failure(CoercionFailed(part, BaseColumn))
    else if prt.None? then
      NotEveryRowConverts(ds, part, rows, PartColumn, p);
      Failure(CoercionFailed(part, PartColumn))
    else if rate.None? then
      NotEveryRowConverts(ds, part, rows, RateColumn, p);
      Failure(CoercionFailed(part, RateColumn))
    else
      assert forall i :: 0 <= i < |rows| ==> RowConverts(ds, part, rows[i], p) by {
        forall i | 0 <= i < |rows| ensures RowConverts(ds, part, rows[i], p) {
          ConvertsWhenColumnsDo(ds, part, rows[i], p);
        }
      }
      Success(Assemble(ds, part, rows, stt.value, base.value, prt.value, rate.value))
  }

  /** The rows that survive the missing-name filter (`df[df['Điện lực'].notna()]`). */
  function NamedRows(raw: seq<RawRow>): seq<RawRow> {
    Filter(raw, Named)
  }

  function DetailSource(raw: seq<RawRow>): seq<RawRow> {
    Filter(NamedRows(raw), IsDetailRow)
  }

  function AggregateSource(raw: seq<RawRow>): seq<RawRow> {
    Filter(NamedRows(raw), IsAggregateRow)
  }

  lemma SourcesNamed(raw: seq<RawRow>)
    ensures forall i :: 0 <= i < |DetailSource(raw)| ==> IsDetailRow(DetailSource(raw)[i])
    ensures forall i :: 0 <= i < |AggregateSource(raw)| ==> IsAggregateRow(AggregateSource(raw)[i])
  {
  }

  /** `load_app_data` / `load_time_data` after the sheet has been read. */
  function Load(ds: Dataset, raw: seq<RawRow>, p: Parsers): (r: Result<Tables, LoadError>)
    ensures r.Success? ==>
      && (forall i :: 0 <= i < |r.value.detail| ==> !IsAggregateName(r.value.detail[i].name))
      && (forall i :: 0 <= i < |r.value.aggregate| ==> IsAggregateName(r.value.aggregate[i].name))
      && |r.value.detail| + |r.value.aggregate| == |NamedRows(raw)|
  {
    SourcesNamed(raw);
    var d :- CoerceTable(ds, DetailPart, DetailSource(raw), p);
    var a :- CoerceTable(ds, AggregatePart, AggregateSource(raw), p);
    FilterPartition(NamedRows(raw), IsDetailRow, IsAggregateRow);
    Success(Tables(d, a))
  }

  predicate AllConvert(ds: Dataset, part: Part, rows: seq<RawRow>, p: Parsers) {
    forall i :: 0 <= i < |rows| ==> RowConverts(ds, part, rows[i], p)
  }

  lemma LoadSucceedsWhenBothTablesDo(ds: Dataset, raw: seq<RawRow>, p: Parsers)
    ensures Load(ds, raw, p).Success? <==>
      AllConvert(ds, DetailPart, DetailSource(raw), p) && AllConvert(ds, AggregatePart, AggregateSource(raw), p)
  {
    SourcesNamed(raw);
  }

  /** Every row of `Filter(raw, kind)` converts iff every row of `raw` of that kind does. */
  lemma AllConvertFiltered(ds: Dataset, part: Part, raw: seq<RawRow>, kind: RawRow -> bool, p: Parsers)
    ensures AllConvert(ds, part, Filter(raw, kind), p) <==>
            forall i :: 0 <= i < |raw| ==> kind(raw[i]) ==> RowConverts(ds, part, raw[i], p)
  {
    var f := Filter(raw, kind);
    if AllConvert(ds, part, f, p) {
      forall i | 0 <= i < |raw| && kind(raw[i]) ensures RowConverts(ds, part, raw[i], p) {
        assert raw[i] in f;
      }
    }
    if forall i :: 0 <= i < |raw| ==> kind(raw[i]) ==> RowConverts(ds, part, raw[i], p) {
      forall k | 0 <= k < |f| ensures RowConverts(ds, part, f[k], p) {
        assert f[k] in raw;
      }
    }
  }

  /** Loading fails exactly when some named row has a cell its table cannot convert. */
  lemma LoadSucceedsIff(ds: Dataset, raw: seq<RawRow>, p: Parsers)
    ensures Load(ds, raw, p).Success? <==>
      forall i :: 0 <= i < |raw| ==>
        && (IsDetailRow(raw[i]) ==> RowConverts(ds, DetailPart, raw[i], p))
        && (IsAggregateRow(raw[i]) ==> RowConverts(ds, AggregatePart, raw[i], p))
  {
    LoadSucceedsWhenBothTablesDo(ds, raw, p);
    FilterNarrow(raw, Named, IsDetailRow);
    FilterNarrow(raw, Named, IsAggregateRow);
    AllConvertFiltered(ds, DetailPart, raw, IsDetailRow, p);
    AllConvertFiltered(ds, AggregatePart, raw, IsAggregateRow, p);
  }

  /** The split keeps each kind of row in source order, and together the two
      kinds hold every named row exactly once. */
  lemma SplitKeepsSourceOrder(raw: seq<RawRow>)
    ensures IsSubsequence(DetailSource(raw), raw)
    ensures IsSubsequence(AggregateSource(raw), raw)
    ensures multiset(DetailSource(raw)) + multiset(AggregateSource(raw)) == multiset(NamedRows(raw))
  {
    SourcesNamed(raw);
    FilterNarrow(raw, Named, IsDetailRow);
    FilterNarrow(raw, Named, IsAggregateRow);
    FilterIsSubsequence(raw, IsDetailRow);
    FilterIsSubsequence(raw, IsAggregateRow);
    FilterPartition(NamedRows(raw), IsDetailRow, IsAggregateRow);
  }

  /** Each loaded table is its source rows converted row for row, in order. */
  lemma LoadConvertsRowForRow(ds: Dataset, raw: seq<RawRow>, p: Parsers)
    ensures Load(ds, raw, p).Success? ==> var t := Load(ds, raw, p).value;
      && |t.detail| == |DetailSource(raw)|
      && |t.aggregate| == |AggregateSource(raw)|
      && (forall k :: 0 <= k < |t.detail| ==> Loaded(ds, DetailPart, DetailSource(raw)[k], t.detail[k], p))
      && (forall k :: 0 <= k < |t.aggregate| ==> Loaded(ds, AggregatePart, AggregateSource(raw)[k], t.aggregate[k], p))
  {
    SourcesNamed(raw);
    if Load(ds, raw, p).Success? {
      var d := CoerceTable(ds, DetailPart, DetailSource(raw), p);
      var a := CoerceTable(ds, AggregatePart, AggregateSource(raw), p);
      assert d.Success? && a.Success?;
      assert Load(ds, raw, p).value == Tables(d.value, a.value);
    }
  }

  /** A numeric rate cell keeps its scale through loading: an adoption rate
      `x` is stored as the fraction `x`, and so is a late rate `x` whose
      rendering Python reads back as `x`. Position `k` counts the branch
      source rows followed by the company source rows. */
  lemma LoadedListingRate(ds: Dataset, raw: seq<RawRow>, p: Parsers, x: real, k: int)
    requires Load(ds, raw, p).Success?
    requires ds == OnTime ==> '%' !in p.render(x) && p.parseFloat(p.render(x)) == Some(x)
    requires 0 <= k < |DetailSource(raw) + AggregateSource(raw)|
    requires (DetailSource(raw) + AggregateSource(raw))[k].rate == Number(x)
    ensures var t := Load(ds, raw, p).value;
      |t.detail + t.aggregate| == |DetailSource(raw) + AggregateSource(raw)| && (t.detail + t.aggregate)[k].rate == x
  {
    ListingRatesLoaded(ds, raw, p);
    if ds == OnTime {
      PercentRateOfNumber(x, p);
    }
  }

  /** Each rate of the branch rows followed by the company rows is its source
      row's rate cell converted the template's way. */
  lemma ListingRatesLoaded(ds: Dataset, raw: seq<RawRow>, p: Parsers)
    requires Load(ds, raw, p).Success?
    ensures var t, src := Load(ds, raw, p).value, DetailSource(raw) + AggregateSource(raw);
      |t.detail + t.aggregate| == |src| &&
      forall k :: 0 <= k < |src| ==> RateOf(ds, src[k].rate, p) == Some((t.detail + t.aggregate)[k].rate)
  {
    var t := Load(ds, raw, p).value;
    LoadConvertsRowForRow(ds, raw, p);
    RatesConvertedInOrder(ds, DetailSource(raw), AggregateSource(raw), t.detail, t.aggregate, p);
  }

  /** Two row-for-row rate conversions, placed one after the other, are again one. */
  lemma RatesConvertedInOrder(ds: Dataset, d: seq<RawRow>, a: seq<RawRow>, td: seq<Row>, ta: seq<Row>, p: Parsers)
    requires |td| == |d| && |ta| == |a|
    requires forall k :: 0 <= k < |d| ==> RateOf(ds, d[k].rate, p) == Some(td[k].rate)
    requires forall k :: 0 <= k < |a| ==> RateOf(ds, a[k].rate, p) == Some(ta[k].rate)
    ensures |td + ta| == |d + a|
    ensures forall k :: 0 <= k < |d + a| ==> RateOf(ds, (d + a)[k].rate, p) == Some((td + ta)[k].rate)
  {
    forall k | 0 <= k < |d + a| ensures RateOf(ds, (d + a)[k].rate, p) == Some((td + ta)[k].rate) {
      if k < |d| {
        assert (d + a)[k] == d[k] && (td + ta)[k] == td[k];
      } else {
        assert (d + a)[k] == a[k - |d|] && (td + ta)[k] == ta[k - |d|];
      }
    }
  }

  /** No row without a branch name reaches either table, and a named row goes
      to the company table exactly when its name carries the marker. */
  lemma ClassificationIsExact(raw: seq<RawRow>, x: RawRow)
    ensures x in DetailSource(raw) <==> x in raw && x.name.Some? && !IsAggregateName(x.name.value)
    ensures x in AggregateSource(raw) <==> x in raw && x.name.Some? && IsAggregateName(x.name.value)
    ensures !(x in DetailSource(raw) && x in AggregateSource(raw))
  {
  }

  /** The on-time loader keeps the company row's STT as read; the app loader converts it. */
  lemma AggregateSttHandling(ds: Dataset, raw: seq<RawRow>, p: Parsers)
    ensures Load(ds, raw, p).Success? ==> var agg := Load(ds, raw, p).value.aggregate;
      forall k :: 0 <= k < |agg| ==>
        (if ds == OnTime then agg[k].stt == Kept(AggregateSource(raw)[k].stt)
         else agg[k].stt.Coerced? && AsInt(AggregateSource(raw)[k].stt, p) == Some(agg[k].stt.n))
  {
    LoadConvertsRowForRow(ds, raw, p);
  }
}
