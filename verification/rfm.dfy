/**
 RFM scoring of the uploaded table: three raw columns are binned into scores
 1..4, summed into a composite score and mapped to a segment label; the
 five results are written as new columns.
 */
module Rfm {
  import opened Wrappers
  import opened Tables
  import opened Binning
  import opened Segments

  const RecencyColumn: string := "DaySinceLastOrder"
  const FrequencyColumn: string := "OrderCount"
  const MonetaryColumn: string := "CashbackAmount"

  const RScoreColumn: string := "R_Score"
  const FScoreColumn: string := "F_Score"
  const MScoreColumn: string := "M_Score"
  const RfmScoreColumn: string := "RFM_Score"
  const SegmentColumn: string := "Customer_Segment"

  /** The columns the scorer writes; any column of the same name in the input is overwritten. */
  const DerivedColumns: set<string> := {"R_Score", "F_Score", "M_Score", "RFM_Score", "Customer_Segment"}

  const RecencyEdges: Edges := [-1, 7, 14, 30, 31]
  const FrequencyEdges: Edges := [0, 3, 7, 12, 16]
  const MonetaryEdges: Edges := [0, 50, 150, 250, 325]

  /** The run stops at the first raw column holding a cell that is missing, text, or a number outside its bins. */
  datatype RfmError = Unscorable(column: string)

  predicate HasRequired(t: Table) {
    RecencyColumn in t.columns && FrequencyColumn in t.columns && MonetaryColumn in t.columns
  }

  /**
   The score of one raw cell: the bin label of a number inside the edges; a
   missing cell, a text cell or a number outside the edges has no score.
   */
  function CellScore(v: Value, edges: Edges): (r: Option<int>)
    ensures r.Some? <==> v.Num? && edges[0] as real <= v.x <= edges[4] as real
    ensures r.Some? ==> 1 <= r.value <= 4 && InBin(v.x, edges, 4 - r.value)
  {
    if v.Num? then Score(v.x, edges) else None
  }

  /** Score a whole column; one unscorable cell makes the whole column fail. */
  function ScoreColumn(col: Column, edges: Edges): (r: Option<seq<int>>)
    ensures r.Some? <==> forall i :: 0 <= i < |col| ==> col[i].Num? && edges[0] as real <= col[i].x <= edges[4] as real
    ensures r.Some? ==> |r.value| == |col|
    ensures r.Some? ==> forall i :: 0 <= i < |col| ==> 1 <= r.value[i] <= 4 && InBin(col[i].x, edges, 4 - r.value[i])
  {
    if forall i :: 0 <= i < |col| ==> CellScore(col[i], edges).Some? then
      Some(seq(|col|, i requires 0 <= i < |col| => CellScore(col[i], edges).value))
    else None
  }

  /** Scores as the integer cells of a frame column. */
  function Nums(xs: seq<int>): (r: Column)
    ensures |r| == |xs|
    ensures forall i :: 0 <= i < |xs| ==> r[i] == Num(xs[i] as real)
  {
    seq(|xs|, i requires 0 <= i < |xs| => Num(xs[i] as real))
  }

  /** The cells of one row after scoring, read against the raw cells of the input. */
  ghost predicate ScoredRow(t: Table, u: Table, i: nat)
    requires Valid(t) && Valid(u) && HasRequired(t) && u.height == t.height && i < t.height
    requires RScoreColumn in u.data && FScoreColumn in u.data && MScoreColumn in u.data
    requires RfmScoreColumn in u.data && SegmentColumn in u.data
  {
    var r := CellScore(t.data[RecencyColumn][i], RecencyEdges);
    var f := CellScore(t.data[FrequencyColumn][i], FrequencyEdges);
    var m := CellScore(t.data[MonetaryColumn][i], MonetaryEdges);
    && r.Some? && f.Some? && m.Some?
    && u.data[RScoreColumn][i] == Num(r.value as real)
    && u.data[FScoreColumn][i] == Num(f.value as real)
    && u.data[MScoreColumn][i] == Num(m.value as real)
    && u.data[RfmScoreColumn][i] == Num((r.value + f.value + m.value) as real)
    && u.data[SegmentColumn][i] == Text(Name(SegmentOf(r.value + f.value + m.value)))
  }

  /**
   u is t with the five score columns added: nothing else is removed or
   altered, and every row carries the scores of its own raw cells.
   */
  ghost predicate Scored(t: Table, u: Table)
    requires Valid(t) && Valid(u) && HasRequired(t)
  {
    && Extends(t, u, DerivedColumns)
    && RScoreColumn in u.data && FScoreColumn in u.data && MScoreColumn in u.data
    && RfmScoreColumn in u.data && SegmentColumn in u.data
    && (forall i :: 0 <= i < t.height ==> ScoredRow(t, u, i))
  }

  /** True iff every cell of a raw column has a score under its edges. */
  predicate ColumnScorable(t: Table, c: string, edges: Edges)
    requires Valid(t) && c in t.columns
  {
    forall i :: 0 <= i < t.height ==> CellScore(t.data[c][i], edges).Some?
  }

  predicate AllScorable(t: Table)
    requires Valid(t) && HasRequired(t)
  {
    && ColumnScorable(t, RecencyColumn, RecencyEdges)
    && ColumnScorable(t, FrequencyColumn, FrequencyEdges)
    && ColumnScorable(t, MonetaryColumn, MonetaryEdges)
  }

  /** The composite score of each row: the sum of its three component scores. */
  function Totals(rs: seq<int>, fs: seq<int>, ms: seq<int>): (r: seq<int>)
    requires |fs| == |rs| && |ms| == |rs|
    ensures |r| == |rs|
    ensures forall i :: 0 <= i < |rs| ==> r[i] == rs[i] + fs[i] + ms[i]
  {
    seq(|rs|, i requires 0 <= i < |rs| => rs[i] + fs[i] + ms[i])
  }

  /** The segment label of each composite score. */
  function Labels(total: seq<int>): (r: Column)
    ensures |r| == |total|
    ensures forall i :: 0 <= i < |total| ==> r[i] == Text(Name(SegmentOf(total[i])))
  {
    seq(|total|, i requires 0 <= i < |total| => Text(Name(SegmentOf(total[i]))))
  }

  /** Write the five derived columns from already computed component scores. */
  function AddScores(t: Table, rs: seq<int>, fs: seq<int>, ms: seq<int>): (u: Table)
    requires Valid(t) && |rs| == t.height && |fs| == t.height && |ms| == t.height
    ensures Valid(u) && u.height == t.height
    ensures IsPrefix(t.columns, u.columns)
    ensures u.data == t.data[RScoreColumn := Nums(rs)][FScoreColumn := Nums(fs)][MScoreColumn := Nums(ms)]
                            [RfmScoreColumn := Nums(Totals(rs, fs, ms))][SegmentColumn := Labels(Totals(rs, fs, ms))]
  {
    var t1 := SetColumn(t, RScoreColumn, Nums(rs));
    var t2 := SetColumn(t1, FScoreColumn, Nums(fs));
    var t3 := SetColumn(t2, MScoreColumn, Nums(ms));
    var t4 := SetColumn(t3, RfmScoreColumn, Nums(Totals(rs, fs, ms)));
    var u := SetColumn(t4, SegmentColumn, Labels(Totals(rs, fs, ms)));
    PrefixTransitive(t.columns, t1.columns, t2.columns);
    PrefixTransitive(t.columns, t2.columns, t3.columns);
    PrefixTransitive(t.columns, t3.columns, t4.columns);
    PrefixTransitive(t.columns, t4.columns, u.columns);
    u
  }

  /** Adding the scores touches no column outside the derived ones. */
  lemma AddScoresExtends(t: Table, rs: seq<int>, fs: seq<int>, ms: seq<int>)
    requires Valid(t) && |rs| == t.height && |fs| == t.height && |ms| == t.height
    ensures Extends(t, AddScores(t, rs, fs, ms), DerivedColumns)
  {
  }

  /**
   On a table without any derived column, the five are appended after the
   existing columns in the order they are assigned.
   */
  lemma AddScoresOrder(t: Table, rs: seq<int>, fs: seq<int>, ms: seq<int>)
    requires Valid(t) && |rs| == t.height && |fs| == t.height && |ms| == t.height
    requires RScoreColumn !in t.columns && FScoreColumn !in t.columns && MScoreColumn !in t.columns
    requires RfmScoreColumn !in t.columns && SegmentColumn !in t.columns
    ensures AddScores(t, rs, fs, ms).columns
         == t.columns + [RScoreColumn, FScoreColumn, MScoreColumn, RfmScoreColumn, SegmentColumn]
  {
    assert RScoreColumn[0] != FScoreColumn[0] && RScoreColumn[0] != MScoreColumn[0];
    assert FScoreColumn[0] != MScoreColumn[0] && RScoreColumn[1] != RfmScoreColumn[1];
    assert SegmentColumn[0] !in {RScoreColumn[0], FScoreColumn[0], MScoreColumn[0], RfmScoreColumn[0]};
    var c1 := Assigned(t.columns, RScoreColumn);
    assert FScoreColumn !in c1;
    var c2 := Assigned(c1, FScoreColumn);
    assert MScoreColumn !in c2;
    var c3 := Assigned(c2, MScoreColumn);
    assert RfmScoreColumn !in c3;
    var c4 := Assigned(c3, RfmScoreColumn);
    assert SegmentColumn !in c4;
    assert Assigned(c4, SegmentColumn)
        == t.columns + [RScoreColumn, FScoreColumn, MScoreColumn, RfmScoreColumn, SegmentColumn];
  }

  /** Each derived column holds what AddScores was asked to write there. */
  lemma AddScoresColumns(t: Table, rs: seq<int>, fs: seq<int>, ms: seq<int>)
    requires Valid(t) && |rs| == t.height && |fs| == t.height && |ms| == t.height
    ensures var u := AddScores(t, rs, fs, ms);
      && RScoreColumn in u.data && u.data[RScoreColumn] == Nums(rs)
      && FScoreColumn in u.data && u.data[FScoreColumn] == Nums(fs)
      && MScoreColumn in u.data && u.data[MScoreColumn] == Nums(ms)
      && RfmScoreColumn in u.data && u.data[RfmScoreColumn] == Nums(Totals(rs, fs, ms))
      && SegmentColumn in u.data && u.data[SegmentColumn] == Labels(Totals(rs, fs, ms))
  {
  }

  /** A row whose derived cells hold the given component scores is a scored row. */
  lemma AddScoresRows(t: Table, u: Table, rs: seq<int>, fs: seq<int>, ms: seq<int>, i: nat)
    requires Valid(t) && Valid(u) && HasRequired(t) && u.height == t.height && i < t.height
    requires |rs| == t.height && |fs| == t.height && |ms| == t.height
    requires RScoreColumn in u.data && u.data[RScoreColumn] == Nums(rs)
    requires FScoreColumn in u.data && u.data[FScoreColumn] == Nums(fs)
    requires MScoreColumn in u.data && u.data[MScoreColumn] == Nums(ms)
    requires RfmScoreColumn in u.data && u.data[RfmScoreColumn] == Nums(Totals(rs, fs, ms))
    requires SegmentColumn in u.data && u.data[SegmentColumn] == Labels(Totals(rs, fs, ms))
    requires CellScore(t.data[RecencyColumn][i], RecencyEdges) == Some(rs[i])
    requires CellScore(t.data[FrequencyColumn][i], FrequencyEdges) == Some(fs[i])
    requires CellScore(t.data[MonetaryColumn][i], MonetaryEdges) == Some(ms[i])
    ensures ScoredRow(t, u, i)
  {
    assert Totals(rs, fs, ms)[i] == rs[i] + fs[i] + ms[i];
  }

  /**
   `compute_rfm`: with a required column missing the table comes back
   unchanged; otherwise each raw column is scored (failing on the first one
   with an out-of-range cell) and the derived columns are added.
   */
  function ComputeRfm(t: Table): (r: Result<Table, RfmError>)
    requires Valid(t)
    ensures !HasRequired(t) ==> r == Success(t)
    ensures r.Failure? <==> HasRequired(t) && !AllScorable(t)
    ensures r.Failure? ==> r.error.column in {RecencyColumn, FrequencyColumn, MonetaryColumn}
    ensures r.Failure? ==> (r.error.column == RecencyColumn <==> !ColumnScorable(t, RecencyColumn, RecencyEdges))
    ensures r.Failure? ==> (r.error.column == FrequencyColumn <==>
              ColumnScorable(t, RecencyColumn, RecencyEdges) && !ColumnScorable(t, FrequencyColumn, FrequencyEdges))
    ensures r.Success? ==> Valid(r.value)
    ensures r.Success? && HasRequired(t) ==> Scored(t, r.value)
  {
    if !HasRequired(t) then Success(t)
    else
      match ScoreColumn(t.data[RecencyColumn], RecencyEdges)
      case None =>
        assert !ColumnScorable(t, RecencyColumn, RecencyEdges);
        Failure(Unscorable(RecencyColumn))
      case Some(rs) =>
        assert ColumnScorable(t, RecencyColumn, RecencyEdges);
        match ScoreColumn(t.data[FrequencyColumn], FrequencyEdges)
        case None =>
          assert !ColumnScorable(t, FrequencyColumn, FrequencyEdges);
          Failure(Unscorable(FrequencyColumn))
        case Some(fs) =>
          assert ColumnScorable(t, FrequencyColumn, FrequencyEdges);
          match ScoreColumn(t.data[MonetaryColumn], MonetaryEdges)
          case None =>
            assert !ColumnScorable(t, MonetaryColumn, MonetaryEdges);
            Failure(Unscorable(MonetaryColumn))
          case Some(ms) =>
            assert ColumnScorable(t, MonetaryColumn, MonetaryEdges);
            var u := AddScores(t, rs, fs, ms);
            AddScoresExtends(t, rs, fs, ms);
            AddScoresColumns(t, rs, fs, ms);
            assert forall i :: 0 <= i < t.height ==> ScoredRow(t, u, i) by {
              forall i | 0 <= i < t.height
                ensures ScoredRow(t, u, i)
              {
                AddScoresRows(t, u, rs, fs, ms, i);
              }
            }
            Success(u)
  }

  /** The recency bins: [-1, 7] scores 4, (7, 14] 3, (14, 30] 2, (30, 31] 1, anything else none. */
  lemma RecencyBins(x: real)
    ensures CellScore(Num(x), RecencyEdges) == Some(4) <==> -1.0 <= x <= 7.0
    ensures CellScore(Num(x), RecencyEdges) == Some(3) <==> 7.0 < x <= 14.0
    ensures CellScore(Num(x), RecencyEdges) == Some(2) <==> 14.0 < x <= 30.0
    ensures CellScore(Num(x), RecencyEdges) == Some(1) <==> 30.0 < x <= 31.0
    ensures CellScore(Num(x), RecencyEdges) == None <==> x < -1.0 || 31.0 < x
  {
  }

  /** The frequency bins: [0, 3] scores 4, (3, 7] 3, (7, 12] 2, (12, 16] 1, anything else none. */
  lemma FrequencyBins(x: real)
    ensures CellScore(Num(x), FrequencyEdges) == Some(4) <==> 0.0 <= x <= 3.0
    ensures CellScore(Num(x), FrequencyEdges) == Some(3) <==> 3.0 < x <= 7.0
    ensures CellScore(Num(x), FrequencyEdges) == Some(2) <==> 7.0 < x <= 12.0
    ensures CellScore(Num(x), FrequencyEdges) == Some(1) <==> 12.0 < x <= 16.0
    ensures CellScore(Num(x), FrequencyEdges) == None <==> x < 0.0 || 16.0 < x
  {
  }

  /** The monetary bins: [0, 50] scores 4, (50, 150] 3, (150, 250] 2, (250, 325] 1, anything else none. */
  lemma MonetaryBins(x: real)
    ensures CellScore(Num(x), MonetaryEdges) == Some(4) <==> 0.0 <= x <= 50.0
    ensures CellScore(Num(x), MonetaryEdges) == Some(3) <==> 50.0 < x <= 150.0
    ensures CellScore(Num(x), MonetaryEdges) == Some(2) <==> 150.0 < x <= 250.0
    ensures CellScore(Num(x), MonetaryEdges) == Some(1) <==> 250.0 < x <= 325.0
    ensures CellScore(Num(x), MonetaryEdges) == None <==> x < 0.0 || 325.0 < x
  {
  }

  /** A missing or text cell never gets a score, so it can never default to a bucket. */
  lemma NonNumericUnscored(v: Value, edges: Edges)
    requires !v.Num?
    ensures CellScore(v, edges) == None
  {
  }

  /**
   In a scored table every component score is 1..4, the composite score is their
   sum and lies in [3, 12], and the segment column holds one of the five labels.
   */
  lemma ScoredRowRanges(t: Table, u: Table, i: nat)
    requires Valid(t) && Valid(u) && HasRequired(t)
    requires Scored(t, u) && i < t.height
    ensures u.data[RScoreColumn][i].Num? && u.data[FScoreColumn][i].Num? && u.data[MScoreColumn][i].Num?
    ensures u.data[RfmScoreColumn][i].Num? && u.data[SegmentColumn][i].Text?
    ensures 1.0 <= u.data[RScoreColumn][i].x <= 4.0
    ensures 1.0 <= u.data[FScoreColumn][i].x <= 4.0
    ensures 1.0 <= u.data[MScoreColumn][i].x <= 4.0
    ensures u.data[RfmScoreColumn][i].x
         == u.data[RScoreColumn][i].x + u.data[FScoreColumn][i].x + u.data[MScoreColumn][i].x
    ensures 3.0 <= u.data[RfmScoreColumn][i].x <= 12.0
    ensures u.data[SegmentColumn][i].s in SegmentNames
  {
    assert ScoredRow(t, u, i);
    var r := CellScore(t.data[RecencyColumn][i], RecencyEdges);
    var f := CellScore(t.data[FrequencyColumn][i], FrequencyEdges);
    var m := CellScore(t.data[MonetaryColumn][i], MonetaryEdges);
  }

  /** Days 3, 10 orders and cashback 200 score 4 + 2 + 2 = 8, a loyal customer. */
  lemma ExampleCustomer()
    ensures CellScore(Num(3.0), RecencyEdges) == Some(4)
    ensures CellScore(Num(10.0), FrequencyEdges) == Some(2)
    ensures CellScore(Num(200.0), MonetaryEdges) == Some(2)
    ensures SegmentOf(4 + 2 + 2) == LoyalCustomers
  {
    RecencyBins(3.0);
    FrequencyBins(10.0);
    MonetaryBins(200.0);
  }
}
