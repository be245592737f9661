/** Concrete cases of the behaviour the report promises. */
module Scenarios {
  import opened Results
  import opened Seqs
  import opened Text
  import opened Cells
  import opened Tables
  import opened Ranking
  import opened Summary
  import opened Report

  function Branch(stt: int, name: string, rate: real): Row {
    Row(Coerced(stt), name, 0, 0, rate)
  }

  /** Rates 10, 5, 5, 20 ranked lowest first, two rows: the tied rows come out
      in source order, B before C. */
  lemma TiedRowsKeepSourceOrder()
    ensures var rows := [Branch(1, "A", 10.0), Branch(2, "B", 5.0), Branch(3, "C", 5.0), Branch(4, "D", 20.0)];
      BottomPositions(rows, 2) == [1, 2] && BottomN(rows, 2) == [rows[1], rows[2]]
  {
    var rows := [Branch(1, "A", 10.0), Branch(2, "B", 5.0), Branch(3, "C", 5.0), Branch(4, "D", 20.0)];
    var keys := Rates(rows);
    assert keys == [10.0, 5.0, 5.0, 20.0];
    var idx := [1, 2];
    assert forall u :: 0 <= u < 4 && u !in idx ==> u == 0 || u == 3;
    assert IsRanking(keys, false, idx);
    BottomPositionsAreTheRanking(rows, 2, idx);
  }

  function FiveBranches(): seq<Row> {
    [Branch(1, "A", 0.10), Branch(2, "B", 0.55), Branch(3, "C", 0.30),
     Branch(4, "D", 0.90), Branch(5, "E", 0.20)]
  }

  lemma FiveBranchTop3()
    ensures TopPositions(FiveBranches(), RankSize) == [3, 1, 2]
  {
    var rows := FiveBranches();
    var keys := Rates(rows);
    assert keys == [0.10, 0.55, 0.30, 0.90, 0.20];
    var idx := [3, 1, 2];
    assert forall u :: 0 <= u < 5 && u !in idx ==> u == 0 || u == 4;
    assert IsRanking(keys, true, idx);
    TopPositionsAreTheRanking(rows, RankSize, idx);
  }

  lemma FiveBranchMean()
    ensures MeanRate(FiveBranches()) == Some(0.41)
  {
    var rows := FiveBranches();
    assert SumRates(rows[4..]) == 0.20;
    assert SumRates(rows[3..]) == 1.10;
    assert SumRates(rows[2..]) == 1.40;
    assert SumRates(rows[1..]) == 1.95;
    assert SumRates(rows) == 2.05;
  }

  /** Five branches with adoption rates 0.10, 0.55, 0.30, 0.90, 0.20 and no
      company row: the top 3 are 0.90, 0.55, 0.30 in that order and the mean is
      0.41, shown as 41 percent. */
  lemma FiveBranchReport()
    ensures var rows := FiveBranches();
      var rep := Summarize(AppAdoption, Tables(rows, [])).value;
      && Summarize(AppAdoption, Tables(rows, [])).Success?
      && [rep.top[0].rate, rep.top[1].rate, rep.top[2].rate] == [0.90, 0.55, 0.30]
      && rep.averagePercent == 41.0
  {
    FiveBranchTop3();
    FiveBranchMean();
  }

  lemma MixedCaseMarkerLowers(a: string)
    requires |a| >= 7 && a[0] == 'C' && a[1] == 'ô' && a[2] == 'n' && a[3] == 'g'
    requires a[4] == ' ' && a[5] == 't' && a[6] == 'y'
    ensures Contains(Lower(a), Marker)
  {
    var l := Lower(a);
    assert l[0] == LowerChar('C') == 'c';
    assert l[1] == LowerChar('ô') == 'ô';
    assert l[2] == LowerChar('n') == 'n';
    assert l[3] == LowerChar('g') == 'g';
    assert l[4] == LowerChar(' ') == ' ';
    assert l[5] == LowerChar('t') == 't';
    assert l[6] == LowerChar('y') == 'y';
    assert OccursAt(l, Marker, 0);
  }

  lemma UpperCaseMarkerLowers(a: string)
    requires |a| >= 7 && a[0] == 'C' && a[1] == 'Ô' && a[2] == 'N' && a[3] == 'G'
    requires a[4] == ' ' && a[5] == 'T' && a[6] == 'Y'
    ensures Contains(Lower(a), Marker)
  {
    var l := Lower(a);
    assert l[0] == LowerChar('C') == 'c';
    assert l[1] == LowerChar('Ô') == 'ô';
    assert l[2] == LowerChar('N') == 'n';
    assert l[3] == LowerChar('G') == 'g';
    assert l[4] == LowerChar(' ') == ' ';
    assert l[5] == LowerChar('T') == 't';
    assert l[6] == LowerChar('Y') == 'y';
    assert OccursAt(l, Marker, 0);
  }

  /** A company row in the usual spelling is recognised. */
  lemma CompanyNameRecognised()
    ensures IsAggregateName("Công ty Điện lực ABC")
  {
    var a := "Công ty Điện lực ABC";
    TrimUnpadded(a);
    MixedCaseMarkerLowers(a);
  }

  /** Upper case and surrounding blanks do not hide a company row. */
  lemma UpperCaseCompanyNameRecognised()
    ensures IsAggregateName("  CÔNG TY  ")
  {
    var b := "  CÔNG TY  ";
    TrimKeepsCore(b, 2, 9);
    assert b[2..9] == "CÔNG TY";
    UpperCaseMarkerLowers("CÔNG TY");
  }

  /** The percent sign is removed wherever it stands. */
  lemma EveryPercentSignRemoved()
    ensures StripPercent("0.02%") == "0.02"
    ensures StripPercent("1%2%") == "12"
  {
  }

  /** Counts are truncated toward zero on both sides of it: 2.5 becomes 2 and
      -2.5 becomes -2, never -3 or any other integer nearer zero. */
  lemma CountsTruncateTowardZero(p: Parsers)
    ensures AsInt(Number(2.5), p) == Some(2)
    ensures AsInt(Number(-2.5), p) == Some(-2)
    ensures AsInt(Number(7.0), p) == Some(7)
  {
  }
}
