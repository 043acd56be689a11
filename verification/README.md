# Batch churn prediction with RFM segmentation — a Dafny model

This project models the decision logic of the batch page of an e-commerce
churn predictor. The page takes an uploaded customer table and runs four stages:

1. It normalises two categorical columns. Login devices are folded into
   "Mobile Phone" / "Computer" / "Other". For payment modes, only "CC" and
   "COD" are expanded.
2. It scores every customer on Recency, Frequency and Monetary value (RFM).
   Three raw columns are each binned into a score from 1 to 4. The three scores
   are summed, and the sum is mapped to one of five customer segments.
3. It reconciles the classifier's declared feature names with the columns of
   the table.
4. It calls the classifier, which is opaque here, and appends one
   "Churn Prediction" label per row. This happens only when the model is
   loaded, the whole table is free of missing values, and at least one declared
   feature is present.

Modules, one per stage, following the page's own structure:

- `Wrappers`: `Option` and `Result`.
- `Tables`: the data frame, column by column. A table is an ordered list of
  column names plus a map from each name to its cells. A cell is `Num(real)`,
  `Text(string)` or `Null`. The module also holds `df[name] = column`
  assignment and the whole-table null test.
- `Normalize`: device and payment normalisation, per cell and per table.
- `Binning`: the right-closed interval binning with the lowest edge included,
  and the positional labels `[4, 3, 2, 1]`.
- `Segments`: the threshold cascade from composite score to segment.
- `Rfm`: `compute_rfm`. It covers the missing-column guard, column scoring
  that fails on out-of-range cells, and the five derived columns.
- `Features`: available and missing features.
- `Pipeline`: the gating, the predictor call, label enrichment and the whole run.

Modelling decisions:

- An out-of-range, missing or non-numeric raw RFM cell gets no bin, and
  nothing is defaulted to a bucket. A missing or out-of-range number is binned
  as missing, and the page then fails when it converts the binned column to
  integers. A text cell makes the binning call itself fail, because the integer
  edges cannot be compared with a string. The model returns
  `Failure(Unscorable(column))` from `ComputeRfm` in all these cases and ends
  the run with `ScoringFailed`. The failure covers the
  whole table, not one row, because the conversion is done column-wide and
  nothing catches the error.
- The predictor is a value of the model: its declared feature list and a
  prediction function. Nothing is assumed about its output. If it returned a
  label count different from the row count, the column assignment would fail.
  This case is kept as the `LabelCountMismatch` outcome rather than excluded by
  a precondition.
- A login-device cell that is missing or numeric is not in the known set, so
  it becomes "Other". As a result, a null in that column never blocks
  prediction (`Pipeline.NullGateExact`). A missing payment mode stays missing
  and does block prediction.
- The frequency and monetary comments in the source say "larger is better".
  The labels `[4, 3, 2, 1]` are still attached to the bins in ascending order,
  so the smallest order count and the smallest cashback get score 4. The model
  reproduces the code, and `Binning.ScoreAntitone` states the direction the
  code actually has.
- Payment normalisation expands only "CC" and "COD". The membership test
  against the known payment modes that follows (line 112) returns the value
  unchanged in both branches, so an unknown payment mode is kept as it is.

## Model

| member | source | states |
|---|---|---|
| Normalize.NormalizeDevice | Streamlit_app/pages/2_multiple_customers.py:96-104 | the result is always "Mobile Phone", "Computer" or "Other", never missing; it is "Mobile Phone" exactly for Phone, Tablet and Mobile Phone, "Computer" exactly for Desktop, Laptop and Computer |
| Normalize.DeviceIdempotent | Streamlit_app/pages/2_multiple_customers.py:96-104 | normalising a device twice gives the same value as once |
| Normalize.DeviceCanonicalFixed | Streamlit_app/pages/2_multiple_customers.py:97-104 | the canonical devices and "Other" are left unchanged |
| Normalize.NormalizePayment | Streamlit_app/pages/2_multiple_customers.py:106-112 | "CC" becomes "Credit Card", "COD" becomes "Cash on Delivery", every other value (known, unknown or missing) is returned unchanged |
| Normalize.PaymentIdempotent | Streamlit_app/pages/2_multiple_customers.py:106-112 | normalising a payment mode twice gives the same value as once |
| Normalize.PaymentCanonicalFixed | Streamlit_app/pages/2_multiple_customers.py:107-112 | the five known payment modes are left unchanged |
| Normalize.UnknownValueAsymmetry | Streamlit_app/pages/2_multiple_customers.py:104-112 | an unknown value such as "Fax" becomes "Other" as a device but stays "Fax" as a payment mode |
| Normalize.NormalizeCategories | Streamlit_app/pages/2_multiple_customers.py:96-112 | only the two categorical columns change, cell by cell, and only when present; column list, row count and every other column are untouched |
| Normalize.NormalizeCategoriesIdempotent | Streamlit_app/pages/2_multiple_customers.py:96-112 | normalising an already normalised table changes nothing |
| Binning.Scan | Streamlit_app/pages/2_multiple_customers.py:55-57 | scanning upward from a bin finds a bin exactly when the value is at most the top edge, and the bin found holds the value |
| Binning.FindBin | Streamlit_app/pages/2_multiple_customers.py:55-57 | a value has a bin exactly when it lies between the lowest and highest edge inclusive; the bin is right-closed, the first one also left-closed |
| Binning.BinUnique | Streamlit_app/pages/2_multiple_customers.py:55-57 | bins do not overlap: at most one bin holds a value |
| Binning.FindBinMonotone | Streamlit_app/pages/2_multiple_customers.py:55-57 | a larger value never falls in a lower bin |
| Binning.Score | Streamlit_app/pages/2_multiple_customers.py:52-57 | with labels [4,3,2,1] the score is in 1..4, present exactly inside the edges, and score k means bin 4-k |
| Binning.ScoreAntitone | Streamlit_app/pages/2_multiple_customers.py:49-57 | positional labels: a larger raw value never gets a larger score, for all three components |
| Rfm.CellScore | Streamlit_app/pages/2_multiple_customers.py:55-57 | a cell scores exactly when it is a number inside the edges; the score is 1..4 and names the bin holding the number |
| Rfm.NonNumericUnscored | Streamlit_app/pages/2_multiple_customers.py:55-57 | a missing or text cell never gets a default score |
| Rfm.RecencyBins | Streamlit_app/pages/2_multiple_customers.py:49-55 | recency scores 4 on [-1,7], 3 on (7,14], 2 on (14,30], 1 on (30,31], none elsewhere |
| Rfm.FrequencyBins | Streamlit_app/pages/2_multiple_customers.py:50-56 | frequency scores 4 on [0,3], 3 on (3,7], 2 on (7,12], 1 on (12,16], none elsewhere |
| Rfm.MonetaryBins | Streamlit_app/pages/2_multiple_customers.py:51-57 | monetary scores 4 on [0,50], 3 on (50,150], 2 on (150,250], 1 on (250,325], none elsewhere |
| Rfm.ScoreColumn | Streamlit_app/pages/2_multiple_customers.py:55-57 | a column scores exactly when every cell is a number between the lowest and highest edge; then each row's score is in 1..4 and names the bin holding that row's number |
| Rfm.ComputeRfm | Streamlit_app/pages/2_multiple_customers.py:42-77 | a missing required column returns the table unchanged; otherwise it fails exactly when some raw cell is unscorable, naming the first unscorable column in recency, frequency, monetary order, and on success only the five derived columns are added or overwritten, every row carrying its own scores, their sum and its segment |
| Rfm.AddScoresOrder | Streamlit_app/pages/2_multiple_customers.py:55-75 | on a table with none of the derived columns, R_Score, F_Score, M_Score, RFM_Score and Customer_Segment are appended after the existing columns, in that order |
| Rfm.ScoredRowRanges | Streamlit_app/pages/2_multiple_customers.py:55-75 | in a scored table each component score is 1..4, RFM_Score equals their sum and lies in [3,12], and the segment is one of the five labels |
| Rfm.ExampleCustomer | Streamlit_app/pages/2_multiple_customers.py:49-73 | 3 days, 10 orders and cashback 200 score 4, 2 and 2, total 8, "Loyal Customers" |
| Segments.SegmentOf | Streamlit_app/pages/2_multiple_customers.py:63-73 | scores of 10 or more are Best, 8-9 Loyal, 6-7 Potential Loyalists, 4-5 At Risk, below 4 Churned; the intervals are disjoint and cover every score |
| Segments.SegmentMonotone | Streamlit_app/pages/2_multiple_customers.py:63-73 | a higher score never yields a lower-ranked segment |
| Segments.NameInjective | Streamlit_app/pages/2_multiple_customers.py:63-75 | different segments carry different labels, each among the five names |
| Segments.SegmentsOnScoreRange | Streamlit_app/pages/2_multiple_customers.py:63-73 | the segment of each reachable score 3..12, and every one of the five labels is the label of some reachable score |
| Features.AvailableFeatures | Streamlit_app/pages/2_multiple_customers.py:128-129 | the result holds exactly the declared features that are columns, as a subsequence of the declared list, and has full length exactly when every declared feature is a column |
| Features.MissingFeatures | Streamlit_app/pages/2_multiple_customers.py:129-132 | the declared set minus the available set is exactly the declared features that are not table columns |
| Features.AvailableCount | Streamlit_app/pages/2_multiple_customers.py:129 | a feature declared n times appears n times among the available features if it is a column, and not at all otherwise |
| Features.ShortfallIffMissing | Streamlit_app/pages/2_multiple_customers.py:131-133 | the shortfall warning fires exactly when the missing set is non-empty |
| Features.AvailableIgnoresColumnOrder | Streamlit_app/pages/2_multiple_customers.py:128-129 | tables whose columns are the same names in another order give the same available features in the same order |
| Features.AvailableDistinct | Streamlit_app/pages/2_multiple_customers.py:128-129 | declared features without repetition give available features without repetition |
| Pipeline.Gate | Streamlit_app/pages/2_multiple_customers.py:122-141 | refuses when the model is not loaded, then when any cell anywhere is null, then when no feature is available; otherwise calls the predictor once on the available features in declared order with every row, and writes its labels to `Churn Prediction`, appended at the end if absent and overwritten in place if present, with no other column changing; when the predictor returns a label count different from the row count, the outcome is the label-count failure and nothing else |
| Pipeline.Run | Streamlit_app/pages/2_multiple_customers.py:96-141 | reports skipped scoring exactly when a required column is missing, stops exactly when scoring fails, and calls the predictor exactly when the model is loaded, scoring succeeded, the scored table has no null and some feature is available |
| Pipeline.NormalizedCellNull | Streamlit_app/pages/2_multiple_customers.py:96-112 | normalisation never creates a null and removes one only from the device column |
| Pipeline.NullsAfterNormalize | Streamlit_app/pages/2_multiple_customers.py:96-112 | after normalisation the table has a null outside a set of columns exactly when the input had one outside that set and the device column |
| Pipeline.DerivedNotNull | Streamlit_app/pages/2_multiple_customers.py:55-75 | the derived score and segment cells are never missing |
| Pipeline.NullsAfterRfm | Streamlit_app/pages/2_multiple_customers.py:119-124 | after scoring, the table has a null exactly when the input had one outside the derived columns |
| Pipeline.RunRefusesOnScoredNulls | Streamlit_app/pages/2_multiple_customers.py:119-125 | with a loaded model and successful scoring, the run refuses for nulls exactly when the scored table has one |
| Pipeline.NullGateScored | Streamlit_app/pages/2_multiple_customers.py:96-125 | when scoring ran, prediction is refused for nulls exactly when the upload has a null outside the device and derived columns |
| Pipeline.NullGateSkipped | Streamlit_app/pages/2_multiple_customers.py:96-125 | when scoring was skipped, prediction is refused for nulls exactly when the upload has a null outside the device column |
| Pipeline.NullGateExact | Streamlit_app/pages/2_multiple_customers.py:96-125 | the two cases together; a null in a column that is not a feature still blocks prediction |
| Pipeline.CallIgnoresColumnOrder | Streamlit_app/pages/2_multiple_customers.py:128-138 | the predictor call does not depend on the order of the table's columns |

## Left out

- Page layout, titles, markdown, sidebar, file upload, `st.write`, the error and warning banners, and the download button are presentation. Warnings appear in the model only as outcome values and flags.
- The "Predict Churn" button is treated as pressed. The model describes what happens on a press.
- The results display picks out the `Churn Prediction`, `RFM_Score` and `Customer_Segment` columns. This is presentation and is not modelled. When scoring was skipped, that selection would fail for lack of the score columns.
- Loading the pickled model is file I/O. It appears only as `Option<Predictor>`, with `None` for a failed load.
- The classifier is opaque. It is a function value supplied by the caller, and nothing about its labels is modelled.
- CSV parsing and UTF-8 export are library I/O. Numeric cells are exact reals, not IEEE floats, and integer score columns are written as reals with integral values.
- The caching of the loaded model across page reruns is process state, not decision logic.
