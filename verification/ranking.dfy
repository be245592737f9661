/** `DataFrame.nlargest(n, col)` and `DataFrame.nsmallest(n, col)` with the
    default `keep='first'`: the first `n` rows of a stable sort on the rate,
    descending or ascending, so that tied rows keep their source order. */
module Ranking {
  import opened Results
  import opened Seqs
  import opened Tables

  /** Position `i` comes before position `j` in the ranked order: a strictly
      better key (larger when `desc`, smaller otherwise), or an equal key and an
      earlier position. */
  predicate Ahead(keys: seq<real>, desc: bool, i: int, j: int)
    requires 0 <= i < |keys| && 0 <= j < |keys|
  {
    (if desc then keys[i] > keys[j] else keys[i] < keys[j]) || (keys[i] == keys[j] && i < j)
  }

  /** `idx` lists positions of `keys` in ranked order, and every position it
      leaves out ranks behind every position it lists. This pins `idx` down
      completely once its length is fixed (see `RankingUnique`). */
  predicate IsRanking(keys: seq<real>, desc: bool, idx: seq<int>) {
    && (forall k :: 0 <= k < |idx| ==> 0 <= idx[k] < |keys|)
    && (forall j, k :: 0 <= j < k < |idx| ==> Ahead(keys, desc, idx[j], idx[k]))
    && (forall k, u :: 0 <= k < |idx| && 0 <= u < |keys| && u !in idx ==> Ahead(keys, desc, idx[k], u))
  }

  /** The position at or after `from`, not in `taken`, that ranks first. */
  function FirstBest(keys: seq<real>, desc: bool, taken: seq<int>, from: nat): (r: Option<nat>)
    requires from <= |keys|
    ensures r.Some? ==> from <= r.value < |keys| && r.value !in taken
    ensures r.Some? ==> forall u :: from <= u < |keys| && u !in taken && u != r.value ==> Ahead(keys, desc, r.value, u)
    ensures r.None? ==> forall u :: from <= u < |keys| ==> u in taken
    decreases |keys| - from
  {
    if from == |keys| then None
    else
      var rest := FirstBest(keys, desc, taken, from + 1);
      if from in taken then rest
      else if rest.None? || !Ahead(keys, desc, rest.value, from) then Some(from)
      else rest
  }

  /** The positions of the first `n` rows in ranked order, chosen one at a time. */
  function Ranked(keys: seq<real>, desc: bool, n: nat): (idx: seq<int>)
    ensures IsRanking(keys, desc, idx)
    ensures |idx| == Min(n, |keys|)
    decreases n
  {
    if n == 0 then []
    else
      var prev := Ranked(keys, desc, n - 1);
      assert Distinct(prev);
      DistinctIndicesBound(prev, |keys|);
      match FirstBest(keys, desc, prev, 0)
      case None => prev
      case Some(i) =>
        var next := prev + [i];
        assert forall k :: 0 <= k < |prev| ==> next[k] == prev[k];
        assert forall u :: u !in next ==> u !in prev && u != i;
        next
  }

  /** Entry `k` of a ranking is the position that ranks first among those
      not listed before it. */
  lemma RankingPicksBestOfRest(keys: seq<real>, desc: bool, a: seq<int>, k: int)
    requires IsRanking(keys, desc, a) && 0 <= k < |a|
    ensures a[k] !in a[..k]
    ensures forall u :: 0 <= u < |keys| && u !in a[..k] && u != a[k] ==> Ahead(keys, desc, a[k], u)
  {
    assert forall j :: 0 <= j < k ==> a[..k][j] == a[j];
    forall u | 0 <= u < |keys| && u !in a[..k] && u != a[k]
      ensures Ahead(keys, desc, a[k], u)
    {
      if u in a {
        var m :| 0 <= m < |a| && a[m] == u;
        assert m > k;
      }
    }
  }

  lemma {:induction false} RankingPrefixesAgree(keys: seq<real>, desc: bool, a: seq<int>, b: seq<int>, k: nat)
    requires IsRanking(keys, desc, a) && IsRanking(keys, desc, b)
    requires |a| == |b| && k <= |a|
    ensures a[..k] == b[..k]
  {
    if k > 0 {
      RankingPrefixesAgree(keys, desc, a, b, k - 1);
      RankingPicksBestOfRest(keys, desc, a, k - 1);
      RankingPicksBestOfRest(keys, desc, b, k - 1);
      assert a[k - 1] == b[k - 1];
      assert a[..k] == a[..k - 1] + [a[k - 1]];
      assert b[..k] == b[..k - 1] + [b[k - 1]];
    }
  }

  /** Two rankings of the same length are the same ranking: the stable order
      leaves no freedom in which rows are chosen or how they are listed. */
  lemma RankingUnique(keys: seq<real>, desc: bool, a: seq<int>, b: seq<int>)
    requires IsRanking(keys, desc, a) && IsRanking(keys, desc, b)
    requires |a| == |b|
    ensures a == b
  {
    RankingPrefixesAgree(keys, desc, a, b, |a|);
    assert a == a[..|a|] && b == b[..|b|];
  }

  /** The rate column of a table. */
  function Rates(rows: seq<Row>): (keys: seq<real>)
    ensures |keys| == |rows|
    ensures forall i :: 0 <= i < |rows| ==> keys[i] == rows[i].rate
  {
    seq(|rows|, i requires 0 <= i < |rows| => rows[i].rate)
  }

  /** The rows at the given positions, in the given order (`df.take`). */
  function Pick(rows: seq<Row>, idx: seq<int>): (r: seq<Row>)
    requires forall k :: 0 <= k < |idx| ==> 0 <= idx[k] < |rows|
    ensures |r| == |idx|
    ensures forall k :: 0 <= k < |idx| ==> r[k] == rows[idx[k]]
  {
    seq(|idx|, k requires 0 <= k < |idx| => rows[idx[k]])
  }

  /** Source positions of `nlargest(n, rate)`. */
  function TopPositions(rows: seq<Row>, n: nat): (idx: seq<int>)
    ensures IsRanking(Rates(rows), true, idx)
    ensures |idx| == Min(n, |rows|)
  {
    Ranked(Rates(rows), true, n)
  }

  /** Source positions of `nsmallest(n, rate)`. */
  function BottomPositions(rows: seq<Row>, n: nat): (idx: seq<int>)
    ensures IsRanking(Rates(rows), false, idx)
    ensures |idx| == Min(n, |rows|)
  {
    Ranked(Rates(rows), false, n)
  }

  /** `nlargest(n, rate)`: at most `n` rows of `rows`, highest rate first. */
  function TopN(rows: seq<Row>, n: nat): (r: seq<Row>)
    ensures |r| == Min(n, |rows|)
    ensures forall k :: 0 <= k < |r| ==> r[k] in rows
    ensures forall j, k :: 0 <= j < k < |r| ==> r[j].rate >= r[k].rate
  {
    var idx := TopPositions(rows, n);
    assert forall j, k :: 0 <= j < k < |idx| ==> Ahead(Rates(rows), true, idx[j], idx[k]);
    Pick(rows, idx)
  }

  /** `nsmallest(n, rate)`: at most `n` rows of `rows`, lowest rate first. */
  function BottomN(rows: seq<Row>, n: nat): (r: seq<Row>)
    ensures |r| == Min(n, |rows|)
    ensures forall k :: 0 <= k < |r| ==> r[k] in rows
    ensures forall j, k :: 0 <= j < k < |r| ==> r[j].rate <= r[k].rate
  {
    var idx := BottomPositions(rows, n);
    assert forall j, k :: 0 <= j < k < |idx| ==> Ahead(Rates(rows), false, idx[j], idx[k]);
    Pick(rows, idx)
  }

  /** No row left out of the top `n` has a higher rate than a chosen one, and
      a left-out row with an equal rate comes later in the source. */
  lemma TopNBeatsTheRest(rows: seq<Row>, n: nat, u: int)
    requires 0 <= u < |rows| && u !in TopPositions(rows, n)
    ensures forall k :: 0 <= k < |TopN(rows, n)| ==>
              rows[u].rate < TopN(rows, n)[k].rate ||
              (rows[u].rate == TopN(rows, n)[k].rate && TopPositions(rows, n)[k] < u)
  {
    var idx := TopPositions(rows, n);
    assert forall k :: 0 <= k < |idx| ==> Ahead(Rates(rows), true, idx[k], u);
  }

  /** No row left out of the bottom `n` has a lower rate than a chosen one, and
      a left-out row with an equal rate comes later in the source. */
  lemma BottomNBeatsTheRest(rows: seq<Row>, n: nat, u: int)
    requires 0 <= u < |rows| && u !in BottomPositions(rows, n)
    ensures forall k :: 0 <= k < |BottomN(rows, n)| ==>
              rows[u].rate > BottomN(rows, n)[k].rate ||
              (rows[u].rate == BottomN(rows, n)[k].rate && BottomPositions(rows, n)[k] < u)
  {
    var idx := BottomPositions(rows, n);
    assert forall k :: 0 <= k < |idx| ==> Ahead(Rates(rows), false, idx[k], u);
  }

  /** Tied rows keep their source order inside the top and bottom lists. */
  lemma RankedTiesKeepSourceOrder(rows: seq<Row>, n: nat, j: int, k: int)
    requires 0 <= j < k < Min(n, |rows|)
    ensures TopN(rows, n)[j].rate == TopN(rows, n)[k].rate ==> TopPositions(rows, n)[j] < TopPositions(rows, n)[k]
    ensures BottomN(rows, n)[j].rate == BottomN(rows, n)[k].rate ==> BottomPositions(rows, n)[j] < BottomPositions(rows, n)[k]
  {
    var t, b := TopPositions(rows, n), BottomPositions(rows, n);
    assert Ahead(Rates(rows), true, t[j], t[k]);
    assert Ahead(Rates(rows), false, b[j], b[k]);
  }

  /** The first row of the top list has the highest rate of the whole table,
      and the first row of the bottom list the lowest. */
  lemma LeadersAreExtremes(rows: seq<Row>, n: nat)
    requires |rows| > 0 && n > 0
    ensures forall i :: 0 <= i < |rows| ==> rows[i].rate <= TopN(rows, n)[0].rate
    ensures forall i :: 0 <= i < |rows| ==> BottomN(rows, n)[0].rate <= rows[i].rate
  {
    var t, b := TopPositions(rows, n), BottomPositions(rows, n);
    forall i | 0 <= i < |rows| ensures rows[i].rate <= TopN(rows, n)[0].rate {
      if i !in t {
        assert Ahead(Rates(rows), true, t[0], i);
      } else {
        var k :| 0 <= k < |t| && t[k] == i;
        if k > 0 { assert Ahead(Rates(rows), true, t[0], t[k]); }
      }
    }
    forall i | 0 <= i < |rows| ensures BottomN(rows, n)[0].rate <= rows[i].rate {
      if i !in b {
        assert Ahead(Rates(rows), false, b[0], i);
      } else {
        var k :| 0 <= k < |b| && b[k] == i;
        if k > 0 { assert Ahead(Rates(rows), false, b[0], b[k]); }
      }
    }
  }

  /** Any listing that meets the ranking order is the one `nlargest` returns. */
  lemma TopPositionsAreTheRanking(rows: seq<Row>, n: nat, idx: seq<int>)
    requires IsRanking(Rates(rows), true, idx) && |idx| == Min(n, |rows|)
    ensures TopPositions(rows, n) == idx
  {
    RankingUnique(Rates(rows), true, TopPositions(rows, n), idx);
  }

  /** Any listing that meets the ranking order is the one `nsmallest` returns. */
  lemma BottomPositionsAreTheRanking(rows: seq<Row>, n: nat, idx: seq<int>)
    requires IsRanking(Rates(rows), false, idx) && |idx| == Min(n, |rows|)
    ensures BottomPositions(rows, n) == idx
  {
    RankingUnique(Rates(rows), false, BottomPositions(rows, n), idx);
  }
}
