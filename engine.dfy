/**
 * The scoring-and-decision engine (ScholarshipDSS): a weight configuration
 * checked once at construction, three fixed-coefficient component scores,
 * their weighted final score, the threshold decision with its award, the
 * per-applicant explanation and the ranking. Every operation is a function
 * from a table to a new table: the input table is a value and is never
 * changed, which is what the source's `df.copy()` achieves.
 */
module Engine {
  import opened Wrappers
  import opened Numeric
  import opened Tables
  import opened Ranking

  // Columns the calculators read (written by the preprocessing step).
  const PerformanceNorm := "Performance Index_normalized"
  const PreviousNorm := "Previous Scores_normalized"
  const ParentEducationScore := "parent_education_score"
  const IncomeNeedScore := "income_need_score"
  const AttendanceNorm := "attendance_percentage_normalized"
  const ExtracurricularScore := "extracurricular_score"
  const PapersNorm := "Sample Question Papers Practiced_normalized"

  // Columns the engine writes.
  const AcademicCol := "academic_score"
  const FinancialCol := "financial_score"
  const EngagementCol := "engagement_score"
  const FinalCol := "final_score"
  const RecommendationCol := "recommendation"
  const AmountCol := "scholarship_amount"
  const RankCol := "rank"

  /** The input columns in the order the three calculators read them. */
  const ScoreInputs: seq<string> :=
    [PerformanceNorm, PreviousNorm, ParentEducationScore, IncomeNeedScore,
     AttendanceNorm, ExtracurricularScore, PapersNorm]

  const ScoreColumns: set<string> := {AcademicCol, FinancialCol, EngagementCol, FinalCol}
  const DecisionColumns: set<string> := {RecommendationCol, AmountCol}

  // ---------------------------------------------------------------------
  // Weight configuration
  // ---------------------------------------------------------------------

  /** The configured mix of the three components; set once, never reassigned. */
  datatype Dss = Dss(academicWeight: real, financialWeight: real, engagementWeight: real) {
    function Total(): real { academicWeight + financialWeight + engagementWeight }
    predicate NonNegative() { academicWeight >= 0.0 && financialWeight >= 0.0 && engagementWeight >= 0.0 }
    /** The weights pass the constructor's check. */
    predicate Balanced() { IsClose(Total(), 1.0) }
  }

  // numpy's default tolerances for `isclose`.
  const AbsoluteTolerance: real := 0.00000001
  const RelativeTolerance: real := 0.00001

  /** `np.isclose(a, b)`: |a - b| <= atol + rtol * |b|. */
  predicate IsClose(a: real, b: real)
    ensures a == b ==> IsClose(a, b)
    ensures b == 1.0 ==> (IsClose(a, b) <==> -0.00001001 <= a - 1.0 <= 0.00001001)
  {
    Abs(a - b) <= AbsoluteTolerance + RelativeTolerance * Abs(b)
  }

  /** `ScholarshipDSS(academic, financial, engagement)`: accepts the weights when they sum to 1. */
  function NewScholarshipDss(academicWeight: real, financialWeight: real, engagementWeight: real): (r: Result<Dss>)
    ensures r.Ok? <==> -0.00001001 <= academicWeight + financialWeight + engagementWeight - 1.0 <= 0.00001001
    ensures r.Ok? <==> Dss(academicWeight, financialWeight, engagementWeight).Balanced()
    ensures r.Ok? ==> r.value.academicWeight == academicWeight && r.value.financialWeight == financialWeight
                      && r.value.engagementWeight == engagementWeight
    ensures r.Err? ==> r.error == InvalidWeights(academicWeight + financialWeight + engagementWeight)
  {
    var total := academicWeight + financialWeight + engagementWeight;
    if !IsClose(total, 1.0) then Err(InvalidWeights(total))
    else Ok(Dss(academicWeight, financialWeight, engagementWeight))
  }

  /** The default configuration 40 / 40 / 20 passes the check. */
  lemma DefaultWeightsAccepted()
    ensures NewScholarshipDss(0.40, 0.40, 0.20) == Ok(Dss(0.40, 0.40, 0.20))
  {
  }

  // ---------------------------------------------------------------------
  // Component scores of one applicant (before rounding)
  // ---------------------------------------------------------------------

  /** Academic merit: 60% performance index, 40% previous scores. */
  function AcademicScore(performance: Option<real>, previous: Option<real>): (r: Option<real>)
    ensures r.Some? <==> performance.Some? && previous.Some?
    ensures r.Some? ==> Min(performance.value, previous.value) <= r.value <= Max(performance.value, previous.value)
    ensures performance == Some(100.0) && previous == Some(0.0) ==> r == Some(60.0)
    ensures performance == Some(0.0) && previous == Some(100.0) ==> r == Some(40.0)
  {
    Add(Mul(performance, 0.6), Mul(previous, 0.4))
  }

  /** Need implied by the parent-education ordinal: 1, 2, 3 give 100, 50, 0. */
  function ParentEducationNeed(ordinal: Option<real>): (r: Option<real>)
    ensures r.Some? <==> ordinal.Some?
    ensures ordinal == Some(1.0) ==> r == Some(100.0)
    ensures ordinal == Some(2.0) ==> r == Some(50.0)
    ensures ordinal == Some(3.0) ==> r == Some(0.0)
    ensures ordinal.Some? && 1.0 <= ordinal.value <= 3.0 ==> 0.0 <= r.value <= 100.0
  {
    match ordinal
    case None => None
    case Some(e) => Some(100.0 - ((e - 1.0) / 2.0 * 100.0))
  }

  /** Financial need: 70% income need, 30% parent-education need, a missing term counted as 50. */
  function FinancialScore(incomeNeed: Option<real>, parentEducation: Option<real>): (r: real)
    ensures var i, p := incomeNeed.GetOr(50.0), ParentEducationNeed(parentEducation).GetOr(50.0);
            Min(i, p) <= r <= Max(i, p)
    ensures incomeNeed == Some(100.0) && parentEducation == Some(3.0) ==> r == 70.0
  {
    incomeNeed.GetOr(50.0) * 0.7 + ParentEducationNeed(parentEducation).GetOr(50.0) * 0.3
  }

  /** A missing income need or parent education scores exactly like the neutral value 50. */
  lemma FinancialFallback(incomeNeed: Option<real>, parentEducation: Option<real>)
    ensures FinancialScore(None, parentEducation) == FinancialScore(Some(50.0), parentEducation)
    ensures FinancialScore(incomeNeed, None) == FinancialScore(incomeNeed, Some(2.0))
  {
  }

  /** Engagement: 50% attendance, 30% extracurricular flag (scaled to 100), 20% practice papers. */
  function EngagementScore(attendance: Option<real>, extracurricular: Option<real>, papers: Option<real>): (r: Option<real>)
    ensures r.Some? <==> attendance.Some? && extracurricular.Some? && papers.Some?
    ensures r.Some? ==>
      var a, x, p := attendance.value, extracurricular.value * 100.0, papers.value;
      Min(a, Min(x, p)) <= r.value <= Max(a, Max(x, p))
    ensures attendance == Some(0.0) && extracurricular == Some(1.0) && papers == Some(0.0) ==> r == Some(30.0)
  {
    Add(Add(Mul(attendance, 0.5), Mul(Mul(extracurricular, 100.0), 0.3)), Mul(papers, 0.2))
  }

  /** The weighted final score before rounding; NaN when a component is NaN, whatever its weight. */
  function WeightedFinal(w: Dss, academic: Option<real>, financial: real, engagement: Option<real>): (r: Option<real>)
    ensures r.Some? <==> academic.Some? && engagement.Some?
  {
    Add(Add(Mul(academic, w.academicWeight), Some(financial * w.financialWeight)), Mul(engagement, w.engagementWeight))
  }

  /** A single unit weight reproduces its component. */
  lemma SingleWeightSelectsComponent(academic: real, financial: real, engagement: real)
    ensures WeightedFinal(Dss(1.0, 0.0, 0.0), Some(academic), financial, Some(engagement)) == Some(academic)
    ensures WeightedFinal(Dss(0.0, 1.0, 0.0), Some(academic), financial, Some(engagement)) == Some(financial)
    ensures WeightedFinal(Dss(0.0, 0.0, 1.0), Some(academic), financial, Some(engagement)) == Some(engagement)
  {
  }

  /**
   * `x * w` with its bounds `lo * w <= x * w <= hi * w` for a non-negative `w`.
   * The products are returned under names of their own so that callers can
   * combine several of them by linear reasoning alone.
   */
  lemma ScaledBetween(w: real, x: real, lo: real, hi: real) returns (l: real, p: real, h: real)
    requires w >= 0.0 && lo <= x <= hi
    ensures l == lo * w && p == x * w && h == hi * w
    ensures l <= p <= h
  {
    l, p, h := lo * w, x * w, hi * w;
    assert p - l == (x - lo) * w;
    assert h - p == (hi - x) * w;
  }

  /** `c * (wa + wf + we)`, distributed over the three weights. */
  lemma Distributes(c: real, wa: real, wf: real, we: real) returns (s: real)
    ensures s == c * (wa + wf + we)
    ensures s == c * wa + c * wf + c * we
  {
    s := c * (wa + wf + we);
  }

  /** Both components present: the weighted final score is the plain weighted sum. */
  lemma WeightedSum(w: Dss, academic: real, financial: real, engagement: real) returns (r: real)
    ensures WeightedFinal(w, Some(academic), financial, Some(engagement)).Some?
    ensures WeightedFinal(w, Some(academic), financial, Some(engagement)).value == r
    ensures r == academic * w.academicWeight + financial * w.financialWeight + engagement * w.engagementWeight
  {
    var pa, pf, pe := academic * w.academicWeight, financial * w.financialWeight, engagement * w.engagementWeight;
    assert Mul(Some(academic), w.academicWeight).value == pa;
    assert Mul(Some(engagement), w.engagementWeight).value == pe;
    r := pa + pf + pe;
  }

  /** Non-negative weights and components in [0, 100]: the final score lies in [0, 100 * total]. */
  lemma FinalScoreBounded(w: Dss, academic: real, financial: real, engagement: real)
    requires w.NonNegative()
    requires 0.0 <= academic <= 100.0 && 0.0 <= financial <= 100.0 && 0.0 <= engagement <= 100.0
    ensures var r := WeightedFinal(w, Some(academic), financial, Some(engagement)).value;
            0.0 <= r <= 100.0 * w.Total()
  {
    var r := WeightedSum(w, academic, financial, engagement);
    var zero, p, hundred := ConvexSum(w, academic, financial, engagement, 0.0, 100.0);
    assert zero == 0.0 * w.Total();
  }

  /** Non-negative weights with total 1: the final score lies between the smallest and the largest component. */
  lemma FinalScoreConvex(w: Dss, academic: real, financial: real, engagement: real)
    requires w.NonNegative() && w.Total() == 1.0
    ensures var r := WeightedFinal(w, Some(academic), financial, Some(engagement)).value;
            Min(academic, Min(financial, engagement)) <= r <= Max(academic, Max(financial, engagement))
  {
    var lo := Min(academic, Min(financial, engagement));
    var hi := Max(academic, Max(financial, engagement));
    var r := WeightedSum(w, academic, financial, engagement);
    var l, p, h := ConvexSum(w, academic, financial, engagement, lo, hi);
    assert l == lo * 1.0 && h == hi * 1.0;
  }

  /** A weighted sum with non-negative weights lies between `lo` and `hi` times the total weight. */
  lemma ConvexSum(w: Dss, a: real, f: real, g: real, lo: real, hi: real) returns (l: real, p: real, h: real)
    requires w.NonNegative()
    requires lo <= a <= hi && lo <= f <= hi && lo <= g <= hi
    ensures l == lo * w.Total() && h == hi * w.Total()
    ensures p == a * w.academicWeight + f * w.financialWeight + g * w.engagementWeight
    ensures l <= p <= h
  {
    var wa, wf, we := w.academicWeight, w.financialWeight, w.engagementWeight;
    var la, pa, ha := ScaledBetween(wa, a, lo, hi);
    var lf, pf, hf := ScaledBetween(wf, f, lo, hi);
    var lg, pg, hg := ScaledBetween(we, g, lo, hi);
    l := Distributes(lo, wa, wf, we);
    h := Distributes(hi, wa, wf, we);
    p := pa + pf + pg;
  }

  // ---------------------------------------------------------------------
  // Scoring a row and a table
  // ---------------------------------------------------------------------

  /** The seven numbers a row contributes to its scores. */
  datatype Inputs = Inputs(performance: Option<real>, previous: Option<real>,
                           parentEducation: Option<real>, incomeNeed: Option<real>,
                           attendance: Option<real>, extracurricular: Option<real>, papers: Option<real>)

  /** The unrounded scores of one row. */
  datatype Scores = Scores(academic: Option<real>, financial: real, engagement: Option<real>, final: Option<real>)

  predicate HasScoreInputs(row: Row) {
    && PerformanceNorm in row && PreviousNorm in row && ParentEducationScore in row
    && IncomeNeedScore in row && AttendanceNorm in row && ExtracurricularScore in row && PapersNorm in row
  }

  function InputsOf(row: Row): Inputs
    requires HasScoreInputs(row)
  {
    Inputs(AsNumber(row[PerformanceNorm]), AsNumber(row[PreviousNorm]),
           AsNumber(row[ParentEducationScore]), AsNumber(row[IncomeNeedScore]),
           AsNumber(row[AttendanceNorm]), AsNumber(row[ExtracurricularScore]), AsNumber(row[PapersNorm]))
  }

  /** The unrounded scores; the final one is missing exactly when an academic or engagement input is. */
  function ComponentScores(w: Dss, x: Inputs): (r: Scores)
    ensures r.academic.Some? <==> x.performance.Some? && x.previous.Some?
    ensures r.engagement.Some? <==> x.attendance.Some? && x.extracurricular.Some? && x.papers.Some?
    ensures r.final.Some? <==> && x.performance.Some? && x.previous.Some?
                               && x.attendance.Some? && x.extracurricular.Some? && x.papers.Some?
  {
    var a := AcademicScore(x.performance, x.previous);
    var f := FinancialScore(x.incomeNeed, x.parentEducation);
    var e := EngagementScore(x.attendance, x.extracurricular, x.papers);
    Scores(a, f, e, WeightedFinal(w, a, f, e))
  }

  /** The inputs the preprocessing step guarantees: normalized values in [0, 100], flags in {0, 1}, ordinals in [1, 3]. */
  predicate InputsInRange(x: Inputs) {
    && (x.performance.Some? ==> 0.0 <= x.performance.value <= 100.0)
    && (x.previous.Some? ==> 0.0 <= x.previous.value <= 100.0)
    && (x.parentEducation.Some? ==> 1.0 <= x.parentEducation.value <= 3.0)
    && (x.incomeNeed.Some? ==> 0.0 <= x.incomeNeed.value <= 100.0)
    && (x.attendance.Some? ==> 0.0 <= x.attendance.value <= 100.0)
    && (x.extracurricular.Some? ==> 0.0 <= x.extracurricular.value <= 1.0)
    && (x.papers.Some? ==> 0.0 <= x.papers.value <= 100.0)
  }

  predicate InScoreRange(x: Option<real>) { x.Some? ==> 0.0 <= x.value <= 100.0 }

  /** Inputs in range give component scores in [0, 100]; non-negative weights keep the final score in [0, 100 * total]. */
  lemma ComponentScoresInRange(w: Dss, x: Inputs)
    requires InputsInRange(x)
    ensures var s := ComponentScores(w, x);
            InScoreRange(s.academic) && 0.0 <= s.financial <= 100.0 && InScoreRange(s.engagement)
            && (w.NonNegative() && s.final.Some? ==> 0.0 <= s.final.value <= 100.0 * w.Total())
  {
    var s := ComponentScores(w, x);
    if w.NonNegative() && s.final.Some? {
      FinalScoreBounded(w, s.academic.value, s.financial, s.engagement.value);
    }
  }

  function RoundOpt(x: Option<real>): Option<real> {
    match x
    case None => None
    case Some(v) => Some(Round2(v))
  }

  /** One row of `calculate_final_score`: the four rounded scores added to the row. */
  function ScoreRow(w: Dss, row: Row): (r: Row)
    requires HasScoreInputs(row)
    ensures r.Keys == row.Keys + ScoreColumns
    ensures forall c :: c in row && c !in ScoreColumns ==> r[c] == row[c]
    ensures forall c :: c in ScoreColumns ==> !r[c].Text?
  {
    var s := ComponentScores(w, InputsOf(row));
    row[AcademicCol := OptCell(RoundOpt(s.academic))]
       [FinancialCol := Num(Round2(s.financial))]
       [EngagementCol := OptCell(RoundOpt(s.engagement))]
       [FinalCol := OptCell(RoundOpt(s.final))]
  }

  lemma ScoreInputsPresent(df: Frame)
    requires WellFormed(df)
    requires forall k :: 0 <= k < |ScoreInputs| ==> NumericIn(df, ScoreInputs[k])
    ensures forall i :: 0 <= i < |df.rows| ==> HasScoreInputs(df.rows[i])
  {
    assert NumericIn(df, ScoreInputs[0]) && NumericIn(df, ScoreInputs[1]) && NumericIn(df, ScoreInputs[2])
        && NumericIn(df, ScoreInputs[3]) && NumericIn(df, ScoreInputs[4]) && NumericIn(df, ScoreInputs[5])
        && NumericIn(df, ScoreInputs[6]);
  }

  /**
   * `calculate_final_score(df)`: the copy of the table with the four score
   * columns set; the final score combines the unrounded components and each
   * stored score is then rounded to two decimals.
   */
  function CalculateFinalScore(w: Dss, df: Frame): (r: Result<Frame>)
    requires WellFormed(df)
    ensures r.Ok? <==> forall k :: 0 <= k < |ScoreInputs| ==> NumericIn(df, ScoreInputs[k])
    ensures r.Err? ==> Some(r.error) == FirstColumnError(df, ScoreInputs)
    ensures r.Ok? ==> WellFormed(r.value) && r.value.columns == df.columns + ScoreColumns
    ensures r.Ok? ==> KeepsColumns(df, r.value, ScoreColumns)
    ensures r.Ok? ==> forall i :: 0 <= i < |df.rows| ==>
      HasScoreInputs(df.rows[i]) &&
      var s, out := ComponentScores(w, InputsOf(df.rows[i])), r.value.rows[i];
      && out[AcademicCol] == OptCell(RoundOpt(s.academic))
      && out[FinancialCol] == Num(Round2(s.financial))
      && out[EngagementCol] == OptCell(RoundOpt(s.engagement))
      && out[FinalCol] == OptCell(RoundOpt(s.final))
  {
    var error := FirstColumnError(df, ScoreInputs);
    if error.Some? then Err(error.value)
    else
      ScoreInputsPresent(df);
      Ok(Frame(df.columns + ScoreColumns,
               seq(|df.rows|, i requires 0 <= i < |df.rows| => ScoreRow(w, df.rows[i]))))
  }

  /** With in-range inputs and accepted non-negative weights, every stored score is missing or in [0, 100]. */
  lemma ScoredRowInRange(w: Dss, df: Frame, i: int)
    requires WellFormed(df) && CalculateFinalScore(w, df).Ok?
    requires 0 <= i < |df.rows| && InputsInRange(InputsOf(df.rows[i]))
    requires w.NonNegative() && w.Balanced()
    ensures var out := CalculateFinalScore(w, df).value.rows[i];
            forall c :: c in ScoreColumns ==> out[c] == NaN || (out[c].Num? && 0.0 <= out[c].v <= 100.0)
  {
    var s := ComponentScores(w, InputsOf(df.rows[i]));
    ComponentScoresInRange(w, InputsOf(df.rows[i]));
    if s.academic.Some? { Round2InRange(s.academic.value); }
    Round2InRange(s.financial);
    if s.engagement.Some? { Round2InRange(s.engagement.value); }
    if s.final.Some? { Round2InRange(s.final.value); }
  }

  // ---------------------------------------------------------------------
  // Decision rules
  // ---------------------------------------------------------------------

  const FullThreshold: real := 80.0
  const PartialThreshold: real := 60.0

  /** `np.select(conditions, choices, default)`: the choice of the first condition that holds. */
  function Select<T>(conditions: seq<bool>, choices: seq<T>, default: T): (r: T)
    requires |conditions| == |choices|
    ensures (forall k :: 0 <= k < |conditions| ==> !conditions[k]) ==> r == default
    ensures forall k :: 0 <= k < |conditions| && conditions[k] && (forall j :: 0 <= j < k ==> !conditions[j]) ==> r == choices[k]
  {
    if conditions == [] then default
    else if conditions[0] then choices[0]
    else
      assert forall k :: 1 <= k < |conditions| ==> conditions[k] == conditions[1..][k - 1] && choices[k] == choices[1..][k - 1];
      Select(conditions[1..], choices[1..], default)
  }

  lemma SelectOfThree<T>(c0: bool, c1: bool, c2: bool, x0: T, x1: T, x2: T, default: T)
    ensures Select([c0, c1, c2], [x0, x1, x2], default)
         == if c0 then x0 else if c1 then x1 else if c2 then x2 else default
  {
    assert [c0, c1, c2][1..] == [c1, c2] && [x0, x1, x2][1..] == [x1, x2];
    assert [c1, c2][1..] == [c2] && [x1, x2][1..] == [x2];
    assert [c2][1..] == [] && [x2][1..] == [];
    assert Select([c2], [x2], default) == if c2 then x2 else default;
    assert Select([c1, c2], [x1, x2], default) == if c1 then x1 else Select([c2], [x2], default);
    assert Select([c0, c1, c2], [x0, x1, x2], default) == if c0 then x0 else Select([c1, c2], [x1, x2], default);
  }

  /** The three rule conditions; every comparison with NaN is false. */
  function DecisionConditions(score: Option<real>): (c: seq<bool>)
    ensures |c| == 3
    ensures score.None? <==> !(c[0] || c[1] || c[2])
  {
    match score
    case None => [false, false, false]
    case Some(s) => [s >= FullThreshold, s >= PartialThreshold && s < FullThreshold, s < PartialThreshold]
  }

  /** The recommendation column's value. The select default for a NaN score is stored as NaN. */
  function RecommendationCell(score: Option<real>): (r: Cell)
    ensures r == if score.Some? then Text(TierName(TierOf(score.value))) else NaN
  {
    var c := DecisionConditions(score);
    SelectOfThree(c[0], c[1], c[2], Text("Full Scholarship"), Text("Partial Scholarship"), Text("Not Eligible"), NaN);
    Select(c, [Text("Full Scholarship"), Text("Partial Scholarship"), Text("Not Eligible")], NaN)
  }

  /** The scholarship_amount column's value; the select default is 0. */
  function AmountCell(score: Option<real>): (r: Cell)
    ensures r == Num(if score.Some? then Award(TierOf(score.value)) else 0.0)
  {
    var c := DecisionConditions(score);
    SelectOfThree(c[0], c[1], c[2], Num(10000.0), Num(5000.0), Num(0.0), Num(0.0));
    Select(c, [Num(10000.0), Num(5000.0), Num(0.0)], Num(0.0))
  }

  /** The tiers, defined independently of the select. */
  datatype Tier = Full | Partial | NotEligible

  function TierOf(s: real): Tier {
    if s >= 80.0 then Full else if s >= 60.0 then Partial else NotEligible
  }

  function TierName(t: Tier): string {
    match t
    case Full => "Full Scholarship"
    case Partial => "Partial Scholarship"
    case NotEligible => "Not Eligible"
  }

  function Award(t: Tier): real {
    match t
    case Full => 10000.0
    case Partial => 5000.0
    case NotEligible => 0.0
  }

  /** For a number, exactly one of the three conditions holds. */
  lemma ExactlyOneCondition(s: real)
    ensures var c := DecisionConditions(Some(s));
            |c| == 3 && (c[0] || c[1] || c[2]) && !(c[0] && c[1]) && !(c[0] && c[2]) && !(c[1] && c[2])
  {
  }

  /** The recommendation and the amount are those of the score's tier, boundaries included. */
  lemma DecisionMatchesTier(s: real)
    ensures RecommendationCell(Some(s)) == Text(TierName(TierOf(s)))
    ensures AmountCell(Some(s)) == Num(Award(TierOf(s)))
    ensures TierOf(80.0) == Full && TierOf(79.99) == Partial && TierOf(60.0) == Partial && TierOf(59.99) == NotEligible
  {
  }

  /** A NaN score matches no rule. */
  lemma MissingScoreDecision()
    ensures RecommendationCell(None) == NaN && AmountCell(None) == Num(0.0)
  {
  }

  /** `apply_decision_rules(df)`: the copy with the recommendation and amount columns set. */
  function ApplyDecisionRules(df: Frame): (r: Result<Frame>)
    requires WellFormed(df)
    ensures r.Ok? <==> NumericIn(df, FinalCol)
    ensures r.Err? ==> Some(r.error) == ColumnError(df, FinalCol)
    ensures r.Ok? ==> WellFormed(r.value) && r.value.columns == df.columns + DecisionColumns
    ensures r.Ok? ==> KeepsColumns(df, r.value, DecisionColumns)
    ensures r.Ok? ==> forall i :: 0 <= i < |df.rows| ==>
      && r.value.rows[i][RecommendationCol] == RecommendationCell(Key(df.rows[i], FinalCol))
      && r.value.rows[i][AmountCol] == AmountCell(Key(df.rows[i], FinalCol))
  {
    var error := ColumnError(df, FinalCol);
    if error.Some? then Err(error.value)
    else
      var recommendations := seq(|df.rows|, i requires 0 <= i < |df.rows| => RecommendationCell(Key(df.rows[i], FinalCol)));
      var amounts := seq(|df.rows|, i requires 0 <= i < |df.rows| => AmountCell(Key(df.rows[i], FinalCol)));
      Ok(SetColumn(SetColumn(df, RecommendationCol, recommendations), AmountCol, amounts))
  }

  /** In a decided table the recommendation and the amount of every row agree, and follow the thresholds. */
  lemma DecisionsAgree(df: Frame, i: int)
    requires WellFormed(df) && ApplyDecisionRules(df).Ok? && 0 <= i < |df.rows|
    ensures var out, score := ApplyDecisionRules(df).value.rows[i], Key(df.rows[i], FinalCol);
      && (out[RecommendationCol] == Text("Full Scholarship") <==> out[AmountCol] == Num(10000.0))
      && (out[RecommendationCol] == Text("Partial Scholarship") <==> out[AmountCol] == Num(5000.0))
      && (out[RecommendationCol] == Text("Not Eligible") <==> (score.Some? && out[AmountCol] == Num(0.0)))
      && (out[RecommendationCol] == Text("Full Scholarship") <==> score.Some? && score.value >= 80.0)
      && (out[RecommendationCol] == Text("Partial Scholarship") <==> score.Some? && 60.0 <= score.value < 80.0)
      && (out[RecommendationCol] == Text("Not Eligible") <==> score.Some? && score.value < 60.0)
  {
    var score := Key(df.rows[i], FinalCol);
    if score.Some? {
      DecisionMatchesTier(score.value);
    } else {
      MissingScoreDecision();
    }
  }

  // ---------------------------------------------------------------------
  // Explanation
  // ---------------------------------------------------------------------

  /** One category of the breakdown; the raw source values are passed through unformatted. */
  datatype Category = Category(score: Option<real>, weight: real, contribution: Option<real>, components: seq<Cell>)

  datatype Explanation = Explanation(finalScore: Cell, recommendation: Cell,
                                     academic: Category, financial: Category, engagement: Category)
  {
    function TotalContribution(): Option<real> {
      Add(Add(academic.contribution, financial.contribution), engagement.contribution)
    }
  }

  const AcademicSources: seq<string> := ["Performance Index", "Previous Scores"]
  const FinancialSources: seq<string> := ["family_income", "parent_education"]
  const EngagementSources: seq<string> := ["attendance_percentage", "Extracurricular Activities", "Sample Question Papers Practiced"]
  /** The source shown as a dollar amount with thousands separators. */
  const AmountSources: set<string> := {"family_income"}

  /** `row[k]`. */
  function Field(row: Row, k: string): (r: Result<Cell>)
    ensures r.Ok? <==> k in row
    ensures r.Ok? ==> r.value == row[k]
  {
    if k in row then Ok(row[k]) else Err(MissingColumn(k))
  }

  /** `f"${row[k]:,}"`: the thousands-separator format raises a ValueError on text. */
  function AmountField(row: Row, k: string): (r: Result<Cell>)
    ensures r.Ok? <==> k in row && !row[k].Text?
    ensures r.Err? ==> r.error == if k in row then NotFormattable(k) else MissingColumn(k)
    ensures r.Ok? ==> r.value == row[k]
  {
    var c :- Field(row, k);
    if c.Text? then Err(NotFormattable(k)) else Ok(c)
  }

  /** `[row[k] for k in ks]`, failing at the first absent field or at a text value shown as an amount. */
  function Fields(row: Row, ks: seq<string>, amounts: set<string>): (r: Result<seq<Cell>>)
    ensures r.Ok? <==> forall k :: 0 <= k < |ks| ==> ks[k] in row && (ks[k] in amounts ==> !row[ks[k]].Text?)
    ensures r.Ok? ==> |r.value| == |ks| && forall k :: 0 <= k < |ks| ==> r.value[k] == row[ks[k]]
  {
    if ks == [] then Ok([])
    else
      var first :- if ks[0] in amounts then AmountField(row, ks[0]) else Field(row, ks[0]);
      var rest :- Fields(row, ks[1..], amounts);
      Ok([first] + rest)
  }

  function BuildCategory(row: Row, scoreCol: string, weight: real, sources: seq<string>, amounts: set<string>): (r: Result<Category>)
    ensures r.Ok? <==> && scoreCol in row && !row[scoreCol].Text?
                       && forall k :: 0 <= k < |sources| ==> sources[k] in row && (sources[k] in amounts ==> !row[sources[k]].Text?)
  {
    var score :- Field(row, scoreCol);
    if score.Text? then Err(NotNumeric(scoreCol))
    else
      var components :- Fields(row, sources, amounts);
      Ok(Category(AsNumber(score), weight, Mul(AsNumber(score), weight), components))
  }

  predicate ExplainableRow(row: Row) {
    && FinalCol in row && RecommendationCol in row
    && AcademicCol in row && !row[AcademicCol].Text?
    && FinancialCol in row && !row[FinancialCol].Text?
    && EngagementCol in row && !row[EngagementCol].Text?
    && (forall k :: 0 <= k < |AcademicSources| ==> AcademicSources[k] in row)
    && (forall k :: 0 <= k < |FinancialSources| ==>
          FinancialSources[k] in row && (FinancialSources[k] in AmountSources ==> !row[FinancialSources[k]].Text?))
    && (forall k :: 0 <= k < |EngagementSources| ==> EngagementSources[k] in row)
  }

  /** The category built from `scoreCol` carries the stored score, the weight, their product and the raw values. */
  predicate DescribesCategory(c: Category, row: Row, scoreCol: string, weight: real, sources: seq<string>)
    requires scoreCol in row
  {
    && c.score == AsNumber(row[scoreCol]) && c.weight == weight
    && (c.contribution.Some? <==> c.score.Some?)
    && (c.contribution.Some? ==> c.contribution.value == c.score.value * weight)
    && |c.components| == |sources|
    && forall k :: 0 <= k < |sources| ==> sources[k] in row && c.components[k] == row[sources[k]]
  }

  /** `get_score_explanation(row)`: the breakdown of one scored and decided row. */
  function GetScoreExplanation(w: Dss, row: Row): (r: Result<Explanation>)
    ensures r.Ok? <==> ExplainableRow(row)
    ensures r.Ok? ==>
      && r.value.finalScore == row[FinalCol] && r.value.recommendation == row[RecommendationCol]
      && DescribesCategory(r.value.academic, row, AcademicCol, w.academicWeight, AcademicSources)
      && DescribesCategory(r.value.financial, row, FinancialCol, w.financialWeight, FinancialSources)
      && DescribesCategory(r.value.engagement, row, EngagementCol, w.engagementWeight, EngagementSources)
  {
    var finalScore :- Field(row, FinalCol);
    var recommendation :- Field(row, RecommendationCol);
    var academic :- BuildCategory(row, AcademicCol, w.academicWeight, AcademicSources, {});
    var financial :- BuildCategory(row, FinancialCol, w.financialWeight, FinancialSources, AmountSources);
    var engagement :- BuildCategory(row, EngagementCol, w.engagementWeight, EngagementSources, {});
    Ok(Explanation(finalScore, recommendation, academic, financial, engagement))
  }

  /** Perturbing each term of a non-negative weighted sum and the sum itself by at most 0.005 moves it by at most 0.005 * (1 + total). */
  lemma PerturbedSum(wa: real, wf: real, we: real, a: real, f: real, g: real, ra: real, rf: real, rg: real, s: real, rs: real)
    requires wa >= 0.0 && wf >= 0.0 && we >= 0.0
    requires -0.005 <= ra - a <= 0.005 && -0.005 <= rf - f <= 0.005 && -0.005 <= rg - g <= 0.005
    requires s == a * wa + f * wf + g * we && -0.005 <= rs - s <= 0.005
    ensures -0.005 * (1.0 + wa + wf + we) <= ra * wa + rf * wf + rg * we - rs <= 0.005 * (1.0 + wa + wf + we)
  {
    var pa, qa := TermError(wa, a, ra);
    var pf, qf := TermError(wf, f, rf);
    var pg, qg := TermError(we, g, rg);
  }

  /** `rx * w - x * w` is within `0.005 * w` of zero when `rx` is within 0.005 of `x`; the products are returned named. */
  lemma TermError(w: real, x: real, rx: real) returns (p: real, q: real)
    requires w >= 0.0 && -0.005 <= rx - x <= 0.005
    ensures p == rx * w && q == x * w
    ensures -0.005 * w <= p - q <= 0.005 * w
  {
    p, q := rx * w, x * w;
    var d := rx - x;
    assert p - q == d * w;
    if d >= 0.0 { assert d * w <= 0.005 * w; } else { assert d * w >= -0.005 * w; }
  }

  /**
   * For a row of a scored and decided table, the contributions sum to the
   * final score up to rounding: each stored score and the final score are
   * rounded to two decimals separately.
   */
  lemma ExplanationMatchesFinalScore(w: Dss, df: Frame, i: int)
    requires WellFormed(df) && CalculateFinalScore(w, df).Ok?
    requires ApplyDecisionRules(CalculateFinalScore(w, df).value).Ok?
    requires 0 <= i < |df.rows|
    requires GetScoreExplanation(w, ApplyDecisionRules(CalculateFinalScore(w, df).value).value.rows[i]).Ok?
    requires w.NonNegative()
    ensures var e := GetScoreExplanation(w, ApplyDecisionRules(CalculateFinalScore(w, df).value).value.rows[i]).value;
      && (e.TotalContribution().Some? <==> e.finalScore.Num?)
      && (e.TotalContribution().Some? ==>
            var bound := 0.005 * (1.0 + w.Total());
            -bound <= e.TotalContribution().value - e.finalScore.v <= bound)
  {
    DecidedRowScores(w, df, i);
    ExplainedRoundedScores(w, ApplyDecisionRules(CalculateFinalScore(w, df).value).value.rows[i],
                           ComponentScores(w, InputsOf(df.rows[i])));
  }

  /** A row holding the rounded scores `s` explains its final score up to the rounding of each part. */
  lemma ExplainedRoundedScores(w: Dss, row: Row, s: Scores)
    requires GetScoreExplanation(w, row).Ok? && w.NonNegative()
    requires s.final == WeightedFinal(w, s.academic, s.financial, s.engagement)
    requires row[AcademicCol] == OptCell(RoundOpt(s.academic)) && row[FinancialCol] == Num(Round2(s.financial))
    requires row[EngagementCol] == OptCell(RoundOpt(s.engagement)) && row[FinalCol] == OptCell(RoundOpt(s.final))
    ensures var e := GetScoreExplanation(w, row).value;
      && (e.TotalContribution().Some? <==> e.finalScore.Num?)
      && (e.TotalContribution().Some? ==>
            var bound := 0.005 * (1.0 + w.Total());
            -bound <= e.TotalContribution().value - e.finalScore.v <= bound)
  {
    ExplainedScores(w, row);
    var e := GetScoreExplanation(w, row).value;
    if s.academic.Some? && s.engagement.Some? {
      var ra, rf, rg := AsNumber(row[AcademicCol]).value, AsNumber(row[FinancialCol]).value, AsNumber(row[EngagementCol]).value;
      RoundedTotal(w, s, ra, rf, rg, e.finalScore.v, e.TotalContribution().value);
    }
  }

  /** The total of the rounded parts against the rounded final score. */
  lemma RoundedTotal(w: Dss, s: Scores, ra: real, rf: real, rg: real, stored: real, total: real)
    requires w.NonNegative() && s.academic.Some? && s.engagement.Some?
    requires s.final == WeightedFinal(w, s.academic, s.financial, s.engagement) && stored == Round2(s.final.value)
    requires ra == Round2(s.academic.value) && rf == Round2(s.financial) && rg == Round2(s.engagement.value)
    requires total == ra * w.academicWeight + rf * w.financialWeight + rg * w.engagementWeight
    ensures -0.005 * (1.0 + w.Total()) <= total - stored <= 0.005 * (1.0 + w.Total())
  {
    var a, f, g := s.academic.value, s.financial, s.engagement.value;
    var r := WeightedSum(w, a, f, g);
    assert s.academic == Some(a) && s.engagement == Some(g);
    PerturbedSum(w.academicWeight, w.financialWeight, w.engagementWeight, a, f, g, ra, rf, rg, r, stored);
  }

  /** Deciding a scored table keeps its four score cells. */
  lemma DecidedRowScores(w: Dss, df: Frame, i: int)
    requires WellFormed(df) && CalculateFinalScore(w, df).Ok?
    requires ApplyDecisionRules(CalculateFinalScore(w, df).value).Ok?
    requires 0 <= i < |df.rows|
    ensures HasScoreInputs(df.rows[i])
    ensures var row, s := ApplyDecisionRules(CalculateFinalScore(w, df).value).value.rows[i], ComponentScores(w, InputsOf(df.rows[i]));
      && AcademicCol in row && row[AcademicCol] == OptCell(RoundOpt(s.academic))
      && FinancialCol in row && row[FinancialCol] == Num(Round2(s.financial))
      && EngagementCol in row && row[EngagementCol] == OptCell(RoundOpt(s.engagement))
      && FinalCol in row && row[FinalCol] == OptCell(RoundOpt(s.final))
  {
    var scored := CalculateFinalScore(w, df).value;
    assert i < |scored.rows|;
    assert AcademicCol in scored.rows[i] && FinancialCol in scored.rows[i];
    assert EngagementCol in scored.rows[i] && FinalCol in scored.rows[i];
  }

  /** The explanation's total is the weighted sum of the row's stored scores. */
  lemma ExplainedScores(w: Dss, row: Row)
    requires GetScoreExplanation(w, row).Ok?
    ensures var e := GetScoreExplanation(w, row).value;
      && e.finalScore == row[FinalCol]
      && var a, f, g := AsNumber(row[AcademicCol]), AsNumber(row[FinancialCol]), AsNumber(row[EngagementCol]);
         (e.TotalContribution().Some? <==> a.Some? && f.Some? && g.Some?)
         && (e.TotalContribution().Some? ==>
               e.TotalContribution().value == a.value * w.academicWeight + f.value * w.financialWeight + g.value * w.engagementWeight)
  {
  }

  // ---------------------------------------------------------------------
  // Ranking
  // ---------------------------------------------------------------------

  /** The rows without their rank column. */
  function Unranked(rows: seq<Row>): (r: seq<Row>)
    ensures |r| == |rows| && forall i :: 0 <= i < |rows| ==> r[i] == rows[i] - {RankCol}
  {
    seq(|rows|, i requires 0 <= i < |rows| => rows[i] - {RankCol})
  }

  /** Numbers the sorted rows 1..N in a fresh rank column. */
  function Numbered(sorted: seq<Row>): (r: seq<Row>)
    ensures |r| == |sorted| && forall i :: 0 <= i < |sorted| ==> r[i] == sorted[i][RankCol := Num((i + 1) as real)]
  {
    seq(|sorted|, i requires 0 <= i < |sorted| => sorted[i][RankCol := Num((i + 1) as real)])
  }

  lemma NumberedFacts(df: Frame, sorted: seq<Row>)
    requires WellFormed(df)
    requires SortedDesc(sorted, FinalCol) && multiset(sorted) == multiset(Unranked(df.rows))
    ensures WellFormed(Frame(df.columns + {RankCol}, Numbered(sorted)))
    ensures SortedDesc(Numbered(sorted), FinalCol)
    ensures Unranked(Numbered(sorted)) == sorted
  {
    var u := Unranked(df.rows);
    var out := Numbered(sorted);
    assert |sorted| == |u| by {
      assert |multiset(sorted)| == |multiset(u)|;
    }
    forall i | 0 <= i < |sorted| ensures sorted[i].Keys == df.columns - {RankCol} {
      assert sorted[i] in multiset(u);
      var j :| 0 <= j < |u| && u[j] == sorted[i];
    }
    forall i | 0 <= i < |sorted| ensures Key(out[i], FinalCol) == Key(sorted[i], FinalCol) {
    }
    forall i | 0 <= i < |sorted| ensures Unranked(out)[i] == sorted[i] {
      assert RankCol !in sorted[i];
      assert (out[i] - {RankCol}).Keys == sorted[i].Keys;
    }
    assert Unranked(out) == sorted;
  }

  /** `rank_applicants(df)`: the rows sorted by final score, highest first, numbered 1..N. */
  function RankApplicants(df: Frame): (r: Result<Frame>)
    requires WellFormed(df)
    ensures r.Ok? <==> NumericIn(df, FinalCol)
    ensures r.Err? ==> Some(r.error) == ColumnError(df, FinalCol)
    ensures r.Ok? ==> WellFormed(r.value) && r.value.columns == df.columns + {RankCol}
    ensures r.Ok? ==> |r.value.rows| == |df.rows|
    ensures r.Ok? ==> SortedDesc(r.value.rows, FinalCol)
    ensures r.Ok? ==> forall i :: 0 <= i < |r.value.rows| ==> r.value.rows[i][RankCol] == Num((i + 1) as real)
    ensures r.Ok? ==> multiset(Unranked(r.value.rows)) == multiset(Unranked(df.rows))
  {
    var error := ColumnError(df, FinalCol);
    if error.Some? then Err(error.value)
    else
      // Sorting after dropping an old rank column and then writing the new
      // one gives the same rows as sorting and then overwriting it.
      var sorted := SortRows(Unranked(df.rows), FinalCol);
      SortRowsCorrect(Unranked(df.rows), FinalCol);
      NumberedFacts(df, sorted);
      assert |multiset(sorted)| == |multiset(Unranked(df.rows))|;
      Ok(Frame(df.columns + {RankCol}, Numbered(sorted)))
  }
}
