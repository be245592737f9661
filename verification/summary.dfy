/** The figures of the overview paragraph: column totals and the mean rate. */
module Summary {
  import opened Results
  import opened Tables

  /** `Series.sum()` of the managed-customer / forwarded-request column. */
  function SumBase(rows: seq<Row>): int {
    if |rows| == 0 then 0 else rows[0].base + SumBase(rows[1..])
  }

  /** `Series.sum()` of the app-adopter / late-ticket column. */
  function SumPart(rows: seq<Row>): int {
    if |rows| == 0 then 0 else rows[0].part + SumPart(rows[1..])
  }

  function SumRates(rows: seq<Row>): real {
    if |rows| == 0 then 0.0 else rows[0].rate + SumRates(rows[1..])
  }

  /** With non-negative counts, a column total is non-negative and at least
      every row's count. */
  lemma {:induction false} CountTotalsBound(rows: seq<Row>)
    requires forall i :: 0 <= i < |rows| ==> rows[i].base >= 0 && rows[i].part >= 0
    ensures 0 <= SumBase(rows) && forall i :: 0 <= i < |rows| ==> rows[i].base <= SumBase(rows)
    ensures 0 <= SumPart(rows) && forall i :: 0 <= i < |rows| ==> rows[i].part <= SumPart(rows)
    decreases |rows|
  {
    if |rows| > 0 {
      CountTotalsBound(rows[1..]);
      assert forall i :: 1 <= i < |rows| ==> rows[i] == rows[1..][i - 1];
    }
  }

  /** Sums over a concatenated table (`pd.concat`) split into the sums of its parts. */
  lemma {:induction false} SumsOfConcat(a: seq<Row>, b: seq<Row>)
    ensures SumBase(a + b) == SumBase(a) + SumBase(b)
    ensures SumPart(a + b) == SumPart(a) + SumPart(b)
    ensures SumRates(a + b) == SumRates(a) + SumRates(b)
    decreases |a|
  {
    if |a| == 0 {
      assert a + b == b;
    } else {
      assert (a + b)[1..] == a[1..] + b;
      SumsOfConcat(a[1..], b);
    }
  }

  /** `Series.mean()`: the unweighted mean of the rates; None for an empty
      table, where pandas yields NaN. */
  function MeanRate(rows: seq<Row>): (m: Option<real>)
    ensures m.None? <==> |rows| == 0
    ensures m.Some? ==> m.value * (|rows| as real) == SumRates(rows)
  {
    if |rows| == 0 then None else Some(SumRates(rows) / (|rows| as real))
  }

  lemma {:induction false} SumRatesBounds(rows: seq<Row>, lo: real, hi: real)
    requires forall i :: 0 <= i < |rows| ==> lo <= rows[i].rate <= hi
    ensures (|rows| as real) * lo <= SumRates(rows) <= (|rows| as real) * hi
    decreases |rows|
  {
    if |rows| > 0 {
      SumRatesBounds(rows[1..], lo, hi);
    }
  }

  /** The mean rate lies between the smallest and the largest rate; in
      particular adoption rates in [0, 1] have a mean in [0, 1]. */
  lemma MeanWithinBounds(rows: seq<Row>, lo: real, hi: real)
    requires |rows| > 0
    requires forall i :: 0 <= i < |rows| ==> lo <= rows[i].rate <= hi
    ensures lo <= MeanRate(rows).value <= hi
  {
    SumRatesBounds(rows, lo, hi);
    var n := |rows| as real;
    var m := MeanRate(rows).value;
    assert m * n == SumRates(rows);
    assert n * lo <= m * n <= n * hi;
  }

  /** The smallest rate of a non-empty table (`Series.min()`). */
  function MinRate(rows: seq<Row>): (m: real)
    requires |rows| > 0
    ensures forall k :: 0 <= k < |rows| ==> m <= rows[k].rate
    ensures exists k :: 0 <= k < |rows| && rows[k].rate == m
  {
    if |rows| == 1 then rows[0].rate
    else
      var rest := MinRate(rows[1..]);
      assert forall k :: 1 <= k < |rows| ==> rows[k] == rows[1..][k - 1];
      if rows[0].rate <= rest then rows[0].rate
      else
        var k :| 0 <= k < |rows| - 1 && rows[1..][k].rate == rest;
        assert rows[k + 1].rate == rest;
        rest
  }
}
