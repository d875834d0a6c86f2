# Scholarship decision support: a verified model of the scoring core

This project models the two core steps of a scholarship decision-support
system and proves their properties:

- **Preprocessing** (`ScholarshipDataProcessor.preprocess_data`) turns a raw
  applicant table into the engine's inputs:
  - it encodes three categorical columns (Yes/No flags and an ordinal for
    parent education);
  - it min-max normalises eight numeric features to 0-100, clipped, or the
    constant 50 when the range is degenerate;
  - it derives an income-need score as 100 minus the normalised family income.
- **The engine** (`ScholarshipDSS`):
  - checks the three top-level weights once, at construction;
  - computes three fixed-coefficient component scores (academic, financial,
    engagement) and their weighted final score, rounded to two decimals;
  - maps the final score to a recommendation and an award (80 / 60
    thresholds, 10000 / 5000 / 0);
  - explains one applicant's score;
  - ranks the table by final score.

A pandas DataFrame is modelled as `Tables.Frame`: a set of column names and a
sequence of rows, where every row maps every column to a cell. A cell is a
number, a text value, or NaN. Numbers are exact reals.

The exceptions the source can raise are modelled as values of
`Tables.Result`:

- `MissingColumn` is a `KeyError`;
- `NotNumeric` is a `TypeError` from arithmetic on text;
- `InvalidWeights` is the constructor's `ValueError`, carrying the sum;
- `NotFormattable` is the `ValueError` of the explanation's thousands-separator
  format applied to a text `family_income`.

Every engine operation is a function from a table to a new table, which is
what the source's `df.copy()` achieves. The processor keeps the one piece of
state the source updates in place, `categorical_mappings`, as a field of the
class `Preprocessing.ScholarshipDataProcessor`. Its `PreprocessData` method
runs the normalisation loop as a `for` loop and is proved to return exactly
`Preprocessing.Preprocessed(df)`.

Files:

- `wrappers.dfy`: `Option`.
- `numeric.dfy`: NaN-propagating arithmetic, `clip`, and round-half-even to two decimals.
- `tables.dfy`: the table model, column errors, and "keeps columns".
- `ranking.dfy`: descending sort with missing values last.
- `engine.dfy`: the `ScholarshipDSS` operations.
- `preprocessing.dfy`: `preprocess_data` and `get_feature_explanation`.
- `pipeline.dfy`: the two steps composed.

Behaviour of the code worth noting:

- **Weight tolerance.** The weight check is `np.isclose` with numpy's
  defaults (atol 1e-8, rtol 1e-5). So a sum is accepted iff it lies
  within 1.001e-5 of 1.
- **Negative weights are accepted.** The code does not reject them. The
  bounds that need non-negative weights require them explicitly.
- **Ranking is not stable.** The ranking uses the default `sort_values`,
  which is not a stable sort, so no tie order is promised.
- **Missing academic and engagement inputs** propagate as NaN. Only the
  financial terms fall back to 50.
- **A missing `family_income` is a `KeyError`.** The feature-range
  dictionary reads `df['family_income'].min()` before the loop
  (data_processor.py:110). A successful run therefore always has
  `family_income_normalized`, and the `income_need_score = 50` branch
  (data_processor.py:130) cannot be reached by a run that returns.
  `Preprocessing.PreprocessedErrors` states the `KeyError`, and
  `Preprocessing.PreprocessedColumns` states that the column is always
  present on success.

## Model

| member | source | states |
|---|---|---|
| Engine.NewScholarshipDss | dss_engine.py:28-34 | accepted iff the weight sum is within numpy's isclose tolerance of 1 (equivalently within 1.001e-5); on success the stored weights are the arguments; otherwise the error carries the sum |
| Engine.IsClose | dss_engine.py:29 | np.isclose with default tolerances: every value is close to itself, and a sum is close to 1 iff it lies within 1.001e-5 of 1 |
| Engine.DefaultWeightsAccepted | dss_engine.py:15-34 | the default 0.40 / 0.40 / 0.20 configuration passes the check unchanged |
| Engine.AcademicScore | dss_engine.py:46-54 | NaN iff an input is NaN; otherwise between the two inputs (so in [0, 100] for inputs there); all-performance input 100 gives 60 and all-previous gives 40 |
| Engine.ParentEducationNeed | dss_engine.py:72 | ordinals 1, 2, 3 give need 100, 50, 0; NaN stays NaN; an ordinal in [1, 3] gives a need in [0, 100] |
| Engine.FinancialScore | dss_engine.py:68-80 | never NaN; lies between the income need and the education need, each read as 50 when missing |
| Engine.FinancialFallback | dss_engine.py:75-76 | a missing income need scores as 50; a missing parent education scores as ordinal 2 (need 50) |
| Engine.EngagementScore | dss_engine.py:93-103 | NaN iff an input is NaN; otherwise between the smallest and largest of attendance, flag x 100 and papers |
| Engine.WeightedFinal | dss_engine.py:120-124 | the final score is NaN iff the academic or the engagement score is NaN, whatever the weights (a zero weight does not hide a NaN) |
| Engine.SingleWeightSelectsComponent | dss_engine.py:120-124 | with weights (1,0,0), (0,1,0) or (0,0,1) the final score is that single component |
| Engine.WeightedSum | dss_engine.py:120-124 | with both NaN-able components present the final score is the plain weighted sum of the three |
| Engine.FinalScoreBounded | dss_engine.py:120-124 | non-negative weights and components in [0, 100] give a final score in [0, 100 x total weight] |
| Engine.FinalScoreConvex | dss_engine.py:120-124 | non-negative weights summing to 1 place the final score between the smallest and the largest component |
| Engine.ComponentScoresInRange | dss_engine.py:46-124 | inputs in the preprocessing ranges give component scores in [0, 100], and with non-negative weights a final score in [0, 100 x total] |
| Engine.ComponentScores | dss_engine.py:115-124 | the academic score is missing iff one of its inputs is, the engagement score likewise, and the final score iff an academic or engagement input is; the financial inputs never make it missing |
| Engine.ScoreRow | dss_engine.py:115-130 | one scored row gains exactly the four score fields, none of them text, and keeps every other field |
| Engine.CalculateFinalScore | dss_engine.py:112-132 | succeeds iff all seven input columns exist and hold no text, else reports the first failing column in read order; adds exactly the four score columns, keeps every other cell, and stores the rounded components and the rounded weighted sum of the unrounded components |
| Engine.ScoredRowInRange | dss_engine.py:115-130 | with in-range inputs and accepted non-negative weights every stored score is NaN or in [0, 100] |
| Numeric.RoundHalfEven | dss_engine.py:127-130 | the nearest integer, within 0.5, and an even one on a tie |
| Numeric.Round2 | dss_engine.py:127-130 | rounding to two decimals moves a value by at most 0.005 |
| Numeric.Round2Monotone | dss_engine.py:127-130 | rounding preserves the order of scores |
| Numeric.Round2Exact | dss_engine.py:127-130 | a value with two decimals is left unchanged |
| Numeric.Round2InRange | dss_engine.py:127-130 | rounding keeps a score in [0, 100], including values up to 100.004 |
| Engine.Select | dss_engine.py:156 | np.select returns the choice of the first condition that holds, and the default when none holds |
| Engine.RecommendationCell | dss_engine.py:149-156 | the recommendation is the name of the score's tier (80 and above Full, 60 to below 80 Partial, below 60 Not Eligible); a NaN score gets the NaN default |
| Engine.AmountCell | dss_engine.py:160-167 | the amount is the award of the score's tier (10000, 5000, 0); a NaN score gets the default 0 |
| Engine.DecisionConditions | dss_engine.py:149-153 | three conditions; none holds iff the score is NaN |
| Engine.ExactlyOneCondition | dss_engine.py:149-153 | for every number exactly one of the three rule conditions holds |
| Engine.DecisionMatchesTier | dss_engine.py:149-167 | the recommendation and the amount are those of the score's tier; 80 is Full, 79.99 and 60 are Partial, 59.99 is Not Eligible |
| Engine.MissingScoreDecision | dss_engine.py:156-167 | a NaN score matches no rule: no recommendation and amount 0 |
| Engine.ApplyDecisionRules | dss_engine.py:146-169 | succeeds iff final_score exists and holds no text; adds exactly the recommendation and amount columns, keeps every other cell, and sets both from each row's final score |
| Engine.DecisionsAgree | dss_engine.py:149-167 | in every decided row the recommendation and the amount agree (Full iff 10000, Partial iff 5000, Not Eligible iff a score with 0), and each tier holds iff the score is in its range |
| Engine.GetScoreExplanation | dss_engine.py:181-216 | succeeds iff the row has the score, recommendation and source fields with numeric scores and a family_income that is not text (the amount format raises a ValueError on text); each category carries its stored score, its weight, score x weight as contribution and the raw source values in order |
| Engine.AmountField | dss_engine.py:199 | the thousands-separator format succeeds iff the field exists and is not text; text raises a ValueError and an absent field a KeyError |
| Engine.ExplainedScores | dss_engine.py:186-206 | the three contributions sum to the weighted sum of the row's stored component scores, and the sum is NaN iff a score is |
| Engine.ExplanationMatchesFinalScore | dss_engine.py:120-130 | for a scored and decided row the explained total is NaN iff the final score is, and otherwise differs from the stored final score by at most 0.005 x (1 + total weight), the effect of rounding each part separately |
| Ranking.Insert | dss_engine.py:225 | inserting a row gives back the other rows plus that row, as a multiset |
| Ranking.SortRows | dss_engine.py:225 | the sort is a permutation of its input; the order is stated by Ranking.SortRowsCorrect |
| Ranking.SortRowsCorrect | dss_engine.py:225 | the sorted rows are in descending final-score order with NaN last, and are a permutation of the input rows |
| Engine.Unranked | dss_engine.py:226 | every row keeps its position and loses only its rank field |
| Engine.Numbered | dss_engine.py:226 | row i of the sorted rows gets rank i + 1 and keeps every other field |
| Engine.NumberedFacts | dss_engine.py:226 | numbering sorted rows keeps them sorted and well formed, and removing the rank column gives back the sorted rows |
| Engine.RankApplicants | dss_engine.py:225-228 | succeeds iff final_score exists and holds no text; the output is sorted by final score descending, has rank i + 1 in position i, has the same number of rows, and apart from the rank column is a permutation of the input rows |
| Tables.SetColumn | dss_engine.py:127-130 | column assignment adds or overwrites exactly that column, keeps every row and every other cell |
| Tables.ColumnError | dss_engine.py:46-103 | arithmetic on a column fails iff the column is absent (KeyError) or holds text (TypeError), with that error |
| Tables.FirstColumnError | dss_engine.py:46-103 | reading columns in order fails iff one of them fails, with the error of the first failing column |
| Preprocessing.Encode | data_processor.py:83-101 | a mapped value is never text, and is a number iff the cell is a text key of the mapping |
| Preprocessing.MapColumn | data_processor.py:83-101 | succeeds iff the source column exists, else a KeyError naming it; adds exactly the target column, keeps every other cell, and encodes each row's own cell |
| Preprocessing.YesNoEncoding | data_processor.py:83-86 | 'Yes' encodes to 1, 'No' to 0, anything else to NaN |
| Preprocessing.EducationEncoding | data_processor.py:89-94 | High School, Undergraduate and Postgraduate encode to 1, 2, 3; anything else to NaN |
| Preprocessing.Extremes | data_processor.py:110 | NaN bounds iff the column has no number; otherwise lo <= hi and every number of the column lies between them |
| Preprocessing.ExtremesAttained | data_processor.py:110 | both bounds are values that occur in the column |
| Preprocessing.ColumnSpan | data_processor.py:110 | succeeds iff the column exists and holds no text, with the error kind otherwise; the result is the column's extremes |
| Numeric.Clip | data_processor.py:118-120 | the result lies in [lo, hi], equals x inside the range and the nearer bound outside it |
| Preprocessing.NumericalFeatures | data_processor.py:104-113 | eight features; every fixed range is non-degenerate, so only family_income, measured against its own column, can fall back to 50 |
| Preprocessing.NormalizeCell | data_processor.py:118-120 | the normalised cell is NaN iff the input is, and otherwise in [0, 100] |
| Preprocessing.NormalizeEnds | data_processor.py:118-120 | the range's minimum normalises to 0 and its maximum to 100 |
| Preprocessing.FeatureCell | data_processor.py:116-122 | a normalised cell, clipped or the constant 50, is NaN or in [0, 100] |
| Preprocessing.NormalizeFeature | data_processor.py:116-122 | fails iff the feature is present, its range is spread and its column holds text; a present feature gains exactly its normalised column computed cell by cell; an absent one changes nothing |
| Preprocessing.NormalizeAll | data_processor.py:115-122 | the loop keeps the table well formed and keeps every row |
| Preprocessing.NormalizeAllFails | data_processor.py:115-122 | the loop fails iff some present feature with a spread range has a column holding text |
| Preprocessing.NormalizeAllColumns | data_processor.py:115-122 | on success the loop adds the normalised column of exactly the present features and keeps every other cell |
| Preprocessing.NormalizeAllCells | data_processor.py:115-122 | on success each present feature's normalised cell is computed from that feature's own cell with its own range |
| Preprocessing.FeaturesDistinct | data_processor.py:104-113 | the eight features have distinct names, and none is another's normalised name, so later passes never overwrite earlier ones |
| Preprocessing.Invert | data_processor.py:128 | NaN iff the input is NaN; otherwise the two values sum to 100 |
| Preprocessing.IncomeNeed | data_processor.py:127-130 | fails iff the normalised income holds text; adds exactly income_need_score, keeps every other cell, and sets it to 100 minus the normalised income, or 50 when that column is absent |
| Preprocessing.Preprocessed | data_processor.py:69-133 | a successful run is well formed and keeps every row |
| Preprocessing.Encoded | data_processor.py:83-101 | the three encodings applied in source order give a well-formed table; its columns and cells are stated by Preprocessing.EncodedTable |
| Preprocessing.EncodedFails | data_processor.py:83-101 | the encodings succeed iff the three raw categorical columns exist; a missing one gives a KeyError naming the first in source order |
| Preprocessing.EncodedTable | data_processor.py:79-101 | the encoded table adds exactly the three score columns to a copy, keeps every other cell, and holds the encoding of each row's raw values |
| Preprocessing.PreprocessedReads | data_processor.py:83-110 | a successful run had the four raw columns every run reads: the three categorical ones and family_income |
| Preprocessing.PreprocessedErrors | data_processor.py:83-110 | an encoding error is the step's error, and after the encodings a missing family_income is a KeyError |
| Preprocessing.PreprocessedColumns | data_processor.py:79-133 | on success the columns are the input's plus the three encodings, the normalised column of each present feature, and income_need_score; family_income_normalized is always among them |
| Preprocessing.PreprocessedKeepsColumns | data_processor.py:79 | on success every input cell outside the written columns is unchanged: the step works on a copy |
| Preprocessing.PreprocessedEncodings | data_processor.py:83-101 | each output row holds the three encodings of its own raw values |
| Preprocessing.PreprocessedNormalized | data_processor.py:115-122 | each output row has a normalised cell, NaN or in [0, 100], for every present feature |
| Preprocessing.PreprocessedNeed | data_processor.py:127-128 | in each output row income need + normalised income = 100, both NaN or both in [0, 100] |
| Preprocessing.PreprocessedIncome | data_processor.py:110-128 | the lowest-income row gets normalised 0 and need 100, the highest gets 100 and 0; when all incomes are equal or missing every row gets 50 and 50 |
| Preprocessing.FeatureExplanation | data_processor.py:139-148 | the default text is returned iff the name has no own text; known names get their own |
| Preprocessing.ExplainedFeatures | data_processor.py:139-146 | seven names are described, including the four raw columns every run reads (the three categorical ones and family_income) |
| Preprocessing.DerivedUnexplained | data_processor.py:148 | unlisted features and the derived columns get the default text |
| Preprocessing.ScholarshipDataProcessor.constructor | data_processor.py:15-17 | a new processor has no recorded mappings |
| Preprocessing.ScholarshipDataProcessor.PreprocessData | data_processor.py:69-133 | returns exactly Preprocessed(df); records the parent-education mapping iff both the first two encodings succeeded, even if a later step fails |
| Pipeline.ColumnNamesAgree | dss_engine.py:50-100 | the seven columns the engine reads are the ones the preprocessing step writes |
| Pipeline.InputColumnsWritten | data_processor.py:115-130 | a preprocessed table built from one with the four raw score features has all seven engine input columns |
| Pipeline.PreparedInRange | dss_engine.py:46-103 | cells in the forms preprocessing produces are numeric engine inputs within the engine's ranges |
| Pipeline.PreprocessedRowInputs | data_processor.py:83-130 | every preprocessed row holds the seven engine inputs as numbers or NaN within the engine's ranges |
| Pipeline.PipelineScores | dss_engine.py:112-132 | the engine accepts every such preprocessed table, and with accepted non-negative weights every stored score is NaN or in [0, 100] |

## Left out

- `streamlit_app.py` (the UI) is not part of this model. Its own `pd.cut` labelling is right-closed, so a score of exactly 80 is Partial there, while the engine says Full, and a score of exactly 60 is Not Eligible there, while the engine says Partial.
- `load_and_enhance_data` is not modelled: it is file input plus seeded random data generation.
- Floating point is not modelled. Numbers are exact reals, and rounding is exact round-half-even to two decimals, so float representation error is absent.
- Engine.NewScholarshipDss: follows the code: negative weights are not rejected.
- Engine.ExplanationMatchesFinalScore: requires non-negative weights, which the source does not check; the general bound with negative weights is not stated.
- Engine.ScoredRowInRange: requires non-negative weights that pass the check; with negative weights the source can produce scores outside [0, 100].
- Engine.FinalScoreConvex: requires the weights to sum to exactly 1; accepted weights may differ from 1 by up to 1.001e-5, which Engine.FinalScoreBounded covers through the bound 100 x total.
- Engine.RankApplicants: tie order among equal final scores is not promised (the library sort is not stable); pandas index labels are not modelled.
- Engine.GetScoreExplanation: the weight strings (`w*100` with "%"), the "$" income formatting and the "%" attendance suffix are not modelled; raw values pass through as cells.
- Engine.RecommendationCell: the select default for a NaN final score is stored as NaN; numpy's rendering of that default is a library detail.
- The unused `MinMaxScaler` field (data_processor.py:16) is left out.
- Engine.RankApplicants: a final_score column holding only text and NaN is sorted by pandas in string order, while the model reports a TypeError for any text; no engine output has a text final score.
- Preprocessing.ColumnSpan: a text value in family_income is modelled as a TypeError; pandas may instead compare strings.
- Preprocessing.ScholarshipDataProcessor.PreprocessData: `categorical_mappings` holds the mapping by value, so aliasing of the dictionary object is not modelled.
- Parent-education ordinals are stored as reals 1.0, 2.0, 3.0 rather than integers, and so are the integer `scholarship_amount` and `rank` values; nothing observable depends on the difference.
