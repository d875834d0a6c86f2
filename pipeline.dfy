/**
 * How the two core steps fit together: the table `preprocess_data` returns
 * is one `calculate_final_score` accepts, and it meets the input ranges the
 * engine's bounds rely on.
 */
module Pipeline {
  import opened Wrappers
  import opened Tables
  import opened Preprocessing
  import opened Engine

  /** The raw columns behind the engine's four normalised inputs. */
  const RawScoreFeatures: set<string> :=
    {"Performance Index", "Previous Scores", "attendance_percentage", "Sample Question Papers Practiced"}

  /** The engine reads the columns the preprocessing step writes. */
  lemma ColumnNamesAgree()
    ensures PerformanceNorm == NormalizedName("Performance Index")
    ensures PreviousNorm == NormalizedName("Previous Scores")
    ensures AttendanceNorm == NormalizedName("attendance_percentage")
    ensures PapersNorm == NormalizedName("Sample Question Papers Practiced")
    ensures ParentEducationScore == ParentEducationScoreCol
    ensures IncomeNeedScore == IncomeNeedScoreCol
    ensures ExtracurricularScore == ExtracurricularScoreCol
  {
  }

  /** A preprocessed table that had the four raw score features has all seven engine inputs as columns. */
  lemma InputColumnsWritten(df: Frame)
    requires WellFormed(df) && Preprocessed(df).Ok? && RawScoreFeatures <= df.columns
    ensures forall k :: 0 <= k < |ScoreInputs| ==> ScoreInputs[k] in Preprocessed(df).value.columns
  {
    PreprocessedColumns(df);
    ColumnNamesAgree();
    var fs := NumericalFeatures(None);
    var written := NormalizedOf(df.columns + EncodedColumns, fs);
    assert fs[1].name == "Previous Scores" && fs[3].name == "Sample Question Papers Practiced";
    assert fs[4].name == "Performance Index" && fs[6].name == "attendance_percentage";
    assert NormalizedName(fs[1].name) in written && NormalizedName(fs[3].name) in written;
    assert NormalizedName(fs[4].name) in written && NormalizedName(fs[6].name) in written;
  }

  /** All seven engine inputs are present in the row and none holds text. */
  predicate NumericInputs(row: Row) {
    HasScoreInputs(row) && forall k :: 0 <= k < |ScoreInputs| ==> !row[ScoreInputs[k]].Text?
  }

  /** The cells of the engine inputs as the preprocessing step leaves them. */
  predicate Prepared(row: Row) {
    && HasScoreInputs(row)
    && Percent(row[PerformanceNorm]) && Percent(row[PreviousNorm]) && Percent(row[AttendanceNorm])
    && Percent(row[PapersNorm]) && Percent(row[IncomeNeedScore])
    && (row[ExtracurricularScore] == NaN || row[ExtracurricularScore] == Num(0.0) || row[ExtracurricularScore] == Num(1.0))
    && (row[ParentEducationScore] == NaN || row[ParentEducationScore] in {Num(1.0), Num(2.0), Num(3.0)})
  }

  /** Prepared cells are numeric engine inputs within the engine's ranges. */
  lemma PreparedInRange(row: Row)
    requires Prepared(row)
    ensures NumericInputs(row) && InputsInRange(InputsOf(row))
  {
    assert !row[ScoreInputs[0]].Text? && !row[ScoreInputs[1]].Text? && !row[ScoreInputs[2]].Text?;
    assert !row[ScoreInputs[3]].Text? && !row[ScoreInputs[4]].Text? && !row[ScoreInputs[5]].Text?;
    assert !row[ScoreInputs[6]].Text?;
  }

  /**
   * Each row of a preprocessed table, built from a table that has the four
   * raw score features, holds the engine inputs in the form the step promises.
   */
  lemma PreprocessedRowPrepared(df: Frame, i: int)
    requires WellFormed(df) && Preprocessed(df).Ok? && RawScoreFeatures <= df.columns && 0 <= i < |df.rows|
    ensures Prepared(Preprocessed(df).value.rows[i])
  {
    NormalizedInputs(df, i);
    EncodedInputs(df, i);
  }

  /** The four normalised inputs of such a row are scores in [0, 100], or NaN. */
  lemma NormalizedInputs(df: Frame, i: int)
    requires WellFormed(df) && Preprocessed(df).Ok? && RawScoreFeatures <= df.columns && 0 <= i < |df.rows|
    ensures var row := Preprocessed(df).value.rows[i];
      && PerformanceNorm in row && Percent(row[PerformanceNorm]) && PreviousNorm in row && Percent(row[PreviousNorm])
      && AttendanceNorm in row && Percent(row[AttendanceNorm]) && PapersNorm in row && Percent(row[PapersNorm])
  {
    var fs := NumericalFeatures(None);
    ColumnNamesAgree();
    assert fs[1].name == "Previous Scores" && fs[3].name == "Sample Question Papers Practiced";
    assert fs[4].name == "Performance Index" && fs[6].name == "attendance_percentage";
    PreprocessedNormalized(df, i, 1);
    PreprocessedNormalized(df, i, 3);
    PreprocessedNormalized(df, i, 4);
    PreprocessedNormalized(df, i, 6);
  }

  /** The flag, the ordinal and the income need of such a row are in their ranges. */
  lemma EncodedInputs(df: Frame, i: int)
    requires WellFormed(df) && Preprocessed(df).Ok? && 0 <= i < |df.rows|
    ensures var row := Preprocessed(df).value.rows[i];
      && IncomeNeedScore in row && Percent(row[IncomeNeedScore])
      && ExtracurricularScore in row
      && (row[ExtracurricularScore] == NaN || row[ExtracurricularScore] == Num(0.0) || row[ExtracurricularScore] == Num(1.0))
      && ParentEducationScore in row
      && (row[ParentEducationScore] == NaN || row[ParentEducationScore] in {Num(1.0), Num(2.0), Num(3.0)})
  {
    ColumnNamesAgree();
    PreprocessedEncodings(df, i);
    PreprocessedNeed(df, i);
    YesNoEncoding(df.rows[i][ExtracurricularCol]);
    EducationEncoding(df.rows[i][ParentEducationCol]);
  }

  /** Each row of such a table holds all seven engine inputs as numbers or NaN, within the engine's ranges. */
  lemma PreprocessedRowInputs(df: Frame, i: int)
    requires WellFormed(df) && Preprocessed(df).Ok? && RawScoreFeatures <= df.columns && 0 <= i < |df.rows|
    ensures var row := Preprocessed(df).value.rows[i];
      NumericInputs(row) && InputsInRange(InputsOf(row))
  {
    PreprocessedRowPrepared(df, i);
    PreparedInRange(Preprocessed(df).value.rows[i]);
  }

  /**
   * The engine accepts every preprocessed table that has the four raw score
   * features; with non-negative weights that pass the constructor's check,
   * every stored score of every row is NaN or in [0, 100].
   */
  lemma PipelineScores(w: Dss, df: Frame)
    requires WellFormed(df) && Preprocessed(df).Ok? && RawScoreFeatures <= df.columns
    ensures CalculateFinalScore(w, Preprocessed(df).value).Ok?
    ensures w.NonNegative() && w.Balanced() ==>
      var scored := CalculateFinalScore(w, Preprocessed(df).value).value;
      forall i, c :: 0 <= i < |scored.rows| && c in ScoreColumns ==>
        c in scored.rows[i] && (scored.rows[i][c] == NaN || (scored.rows[i][c].Num? && 0.0 <= scored.rows[i][c].v <= 100.0))
  {
    var out := Preprocessed(df).value;
    forall i | 0 <= i < |out.rows| ensures NumericInputs(out.rows[i]) && InputsInRange(InputsOf(out.rows[i])) {
      PreprocessedRowInputs(df, i);
    }
    forall k | 0 <= k < |ScoreInputs| ensures NumericIn(out, ScoreInputs[k]) {
      InputColumnsWritten(df);
    }
    if w.NonNegative() && w.Balanced() {
      var scored := CalculateFinalScore(w, out).value;
      forall i, c | 0 <= i < |scored.rows| && c in ScoreColumns
        ensures c in scored.rows[i] && (scored.rows[i][c] == NaN || (scored.rows[i][c].Num? && 0.0 <= scored.rows[i][c].v <= 100.0))
      {
        ScoredRowInRange(w, out, i);
      }
    }
  }
}
