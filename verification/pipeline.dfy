/**
 The batch page's flow after upload: normalise categories, score RFM, then
 gate the prediction on the model, on missing values and on the available
 features, and append the predicted labels.
 */
module Pipeline {
  import opened Wrappers
  import opened Tables
  import opened Normalize
  import opened Rfm
  import opened Features

  const PredictionColumn: string := "Churn Prediction"

  /**
   The loaded classifier: its declared feature names, in order, and its
   prediction function from named feature rows to one label per row. It is
   opaque here; nothing is assumed about the labels it returns.
   */
  datatype Predictor = Predictor(features: seq<string>, predict: (seq<string>, seq<seq<Value>>) -> seq<int>)

  /** What reaches the predictor: the feature names and, per row, the cells of those columns. */
  datatype PredictorCall = PredictorCall(features: seq<string>, rows: seq<seq<Value>>)

  datatype Outcome =
    | ScoringFailed(column: string)                           // a raw RFM cell outside its bins: the page stops
    | ModelNotLoaded(table: Table)                            // the model file could not be loaded
    | MissingValues(table: Table)                             // a null somewhere in the table
    | NoUsableFeatures(table: Table, missing: set<string>)    // no declared feature is a column
    | LabelCountMismatch(table: Table, missing: set<string>)  // the label column cannot be assigned
    | Predicted(table: Table, missing: set<string>)           // labels appended as a new column

  /** The result of the gating stage: the predictor call made, if any, and the outcome. */
  datatype Gated = Gated(call: Option<PredictorCall>, outcome: Outcome)

  /** Everything one run reports: whether RFM scoring was skipped, the call made, the outcome. */
  datatype Report = Report(rfmSkipped: bool, call: Option<PredictorCall>, outcome: Outcome)

  /**
   Gating and enrichment of the scored table. The model must be loaded, the
   whole table (not only the feature columns) must be free of nulls, and at
   least one declared feature must be a column; only then is the predictor
   called, on exactly the available features in declared order.
   */
  function Gate(s: Table, model: Option<Predictor>): (g: Gated)
    requires Valid(s)
    ensures g.outcome.ModelNotLoaded? <==> model.None?
    ensures g.outcome.MissingValues? <==> model.Some? && HasNull(s)
    ensures g.outcome.NoUsableFeatures? <==>
              model.Some? && !HasNull(s) && AvailableFeatures(model.value.features, s.columns) == []
    ensures g.call.Some? <==>
              model.Some? && !HasNull(s) && AvailableFeatures(model.value.features, s.columns) != []
    ensures g.call.Some? ==>
              && g.call.value.features == AvailableFeatures(model.value.features, s.columns)
              && (forall k :: 0 <= k < |g.call.value.features| ==> g.call.value.features[k] in s.data)
              && |g.call.value.rows| == s.height
              && (forall i :: 0 <= i < s.height ==> |g.call.value.rows[i]| == |g.call.value.features|)
              && (forall i, k :: 0 <= i < s.height && 0 <= k < |g.call.value.features| ==>
                    g.call.value.rows[i][k] == s.data[g.call.value.features[k]][i])
    ensures g.outcome.Predicted? <==>
              g.call.Some? && |model.value.predict(g.call.value.features, g.call.value.rows)| == s.height
    ensures g.outcome.LabelCountMismatch? <==>
              g.call.Some? && |model.value.predict(g.call.value.features, g.call.value.rows)| != s.height
    ensures !g.outcome.ScoringFailed?
    ensures g.outcome.Predicted? ==>
              && Extends(s, g.outcome.table, {PredictionColumn})
              && PredictionColumn in g.outcome.table.data
              && g.outcome.table.data[PredictionColumn]
                 == Nums(model.value.predict(g.call.value.features, g.call.value.rows))
    ensures g.outcome.NoUsableFeatures? || g.outcome.LabelCountMismatch? || g.outcome.Predicted? ==>
              g.outcome.missing == set f | f in model.value.features && f !in s.columns
  {
    if model.None? then Gated(None, ModelNotLoaded(s))
    else if HasNull(s) then Gated(None, MissingValues(s))
    else
      var p := model.value;
      var available := AvailableFeatures(p.features, s.columns);
      var missing := MissingFeatures(p.features, s.columns);
      if |available| == 0 then Gated(None, NoUsableFeatures(s, missing))
      else
        var call := PredictorCall(available, Rows(s, available));
        var labels := p.predict(call.features, call.rows);
        if |labels| != s.height then Gated(Some(call), LabelCountMismatch(s, missing))
        else
          var u := SetColumn(s, PredictionColumn, Nums(labels));
          assert Extends(s, u, {PredictionColumn});
          Gated(Some(call), Predicted(u, missing))
  }

  /** The whole run on an uploaded table, given the model-loading result. */
  function Run(raw: Table, model: Option<Predictor>): (rep: Report)
    requires Valid(raw)
    ensures rep.rfmSkipped <==> !HasRequired(raw)
    ensures rep.outcome.ScoringFailed? <==> ComputeRfm(NormalizeCategories(raw)).Failure?
    ensures rep.call.Some? <==>
              && model.Some?
              && ComputeRfm(NormalizeCategories(raw)).Success?
              && !HasNull(ComputeRfm(NormalizeCategories(raw)).value)
              && AvailableFeatures(model.value.features, ComputeRfm(NormalizeCategories(raw)).value.columns) != []
  {
    var n := NormalizeCategories(raw);
    match ComputeRfm(n)
    case Failure(e) => Report(false, None, ScoringFailed(e.column))
    case Success(s) =>
      var g := Gate(s, model);
      Report(!HasRequired(n), g.call, g.outcome)
  }

  /** Normalisation never creates a null, and removes one only from the device column. */
  lemma NormalizedCellNull(t: Table, c: string, i: nat)
    requires Valid(t) && c in t.data && i < t.height
    ensures var n := NormalizeCategories(t);
      c in n.data && |n.data[c]| == t.height
      && (n.data[c][i] == Null <==> c != DeviceColumn && t.data[c][i] == Null)
  {
    var n := NormalizeCategories(t);
    if c == DeviceColumn {
      assert n.data[c][i] == NormalizeDevice(t.data[c][i]);
    } else if c == PaymentColumn {
      assert n.data[c][i] == NormalizePayment(t.data[c][i]);
    } else {
      assert n.data[c] == t.data[c];
    }
  }

  /**
   After normalisation a missing value can only survive outside the device
   column: a missing device becomes "Other", a missing payment mode stays missing.
   */
  lemma NullsAfterNormalize(t: Table, exempt: set<string>)
    requires Valid(t)
    ensures NullOutside(NormalizeCategories(t), exempt) <==> NullOutside(t, exempt + {DeviceColumn})
  {
    var n := NormalizeCategories(t);
    if NullOutside(n, exempt) {
      var c, i :| c in n.data && c !in exempt && 0 <= i < |n.data[c]| && n.data[c][i] == Null;
      NormalizedCellNull(t, c, i);
      assert c !in exempt + {DeviceColumn};
    }
    if NullOutside(t, exempt + {DeviceColumn}) {
      var c, i :| c in t.data && c !in exempt + {DeviceColumn} && 0 <= i < |t.data[c]| && t.data[c][i] == Null;
      NormalizedCellNull(t, c, i);
    }
  }

  /** A derived cell of a scored table is a number or a label, never missing. */
  lemma DerivedNotNull(t: Table, u: Table, c: string, i: nat)
    requires Valid(t) && Valid(u) && HasRequired(t) && Scored(t, u)
    requires c in DerivedColumns && i < t.height
    ensures c in u.data && u.data[c][i] != Null
  {
    assert ScoredRow(t, u, i);
  }

  /**
   The derived score columns never hold a missing value, and every other column
   of the scored table is the input's, so nulls after scoring are exactly the
   input's nulls outside the derived columns.
   */
  lemma NullsAfterRfm(t: Table, u: Table)
    requires Valid(t) && HasRequired(t) && Valid(u) && Scored(t, u)
    ensures HasNull(u) <==> NullOutside(t, DerivedColumns)
  {
    if HasNull(u) {
      var c, i :| c in u.data && 0 <= i < |u.data[c]| && u.data[c][i] == Null;
      if c in DerivedColumns {
        DerivedNotNull(t, u, c, i);
      } else {
        assert t.data[c][i] == Null;
      }
    }
    if NullOutside(t, DerivedColumns) {
      var c, i :| c in t.data && c !in DerivedColumns && 0 <= i < |t.data[c]| && t.data[c][i] == Null;
      assert u.data[c][i] == Null;
    }
  }

  /** With a loaded model, a run whose scoring succeeds refuses for nulls iff the scored table has one. */
  lemma RunRefusesOnScoredNulls(raw: Table, p: Predictor)
    requires Valid(raw)
    requires ComputeRfm(NormalizeCategories(raw)).Success?
    ensures Run(raw, Some(p)).outcome.MissingValues? <==> HasNull(ComputeRfm(NormalizeCategories(raw)).value)
  {
    var s := ComputeRfm(NormalizeCategories(raw)).value;
    assert Run(raw, Some(p)).outcome == Gate(s, Some(p)).outcome;
  }

  /** The scoring case of NullGateExact. */
  lemma NullGateScored(raw: Table, p: Predictor)
    requires Valid(raw) && HasRequired(raw)
    requires AllScorable(NormalizeCategories(raw))
    ensures Run(raw, Some(p)).outcome.MissingValues? <==> NullOutside(raw, DerivedColumns + {DeviceColumn})
  {
    var n := NormalizeCategories(raw);
    assert ComputeRfm(n).Success?;
    RunRefusesOnScoredNulls(raw, p);
    NullsAfterRfm(n, ComputeRfm(n).value);
    NullsAfterNormalize(raw, DerivedColumns);
  }

  /** The skipped-scoring case of NullGateExact. */
  lemma NullGateSkipped(raw: Table, p: Predictor)
    requires Valid(raw) && !HasRequired(raw)
    ensures Run(raw, Some(p)).outcome.MissingValues? <==> NullOutside(raw, {DeviceColumn})
  {
    var n := NormalizeCategories(raw);
    RunRefusesOnScoredNulls(raw, p);
    assert HasNull(n) <==> NullOutside(n, {});
    NullsAfterNormalize(raw, {});
  }

  /**
   With a loaded model and a table that scores, prediction is refused for
   missing values exactly when the uploaded table has a null in some column
   other than the device column (and, when scoring ran, other than a column
   the scores overwrite), whether or not that column is a feature.
   */
  lemma NullGateExact(raw: Table, p: Predictor)
    requires Valid(raw)
    requires HasRequired(raw) ==> AllScorable(NormalizeCategories(raw))
    ensures Run(raw, Some(p)).outcome.MissingValues?
        <==> NullOutside(raw, (if HasRequired(raw) then DerivedColumns else {}) + {DeviceColumn})
  {
    if HasRequired(raw) {
      NullGateScored(raw, p);
    } else {
      NullGateSkipped(raw, p);
    }
  }

  /**
   The predictor call does not depend on the table's column order: two scored
   tables with the same cells whose columns are permuted lead to the same call.
   */
  lemma CallIgnoresColumnOrder(s1: Table, s2: Table, model: Option<Predictor>)
    requires Valid(s1) && Valid(s2)
    requires s1.data == s2.data && s1.height == s2.height
    requires forall c :: c in s1.columns <==> c in s2.columns
    ensures Gate(s1, model).call == Gate(s2, model).call
  {
    if model.Some? {
      AvailableIgnoresColumnOrder(model.value.features, s1.columns, s2.columns);
    }
  }
}
