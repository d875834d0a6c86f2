/**
 * `ScholarshipDataProcessor.preprocess_data`: the step that turns the raw
 * applicant table into the engine's inputs. It encodes three categorical
 * columns, min-max normalises eight numeric features to 0-100 (clipped, or
 * the constant 50 when the range is degenerate) and derives the income need
 * score as 100 minus the normalised family income. All new columns go on a
 * copy of the table; the processor object records the parent-education
 * mapping it used.
 */
module Preprocessing {
  import opened Wrappers
  import opened Numeric
  import opened Tables

  // Raw columns read
  const ExtracurricularCol := "Extracurricular Activities"
  const ParentEducationCol := "parent_education"
  const PreviousScholarshipCol := "previous_scholarship"
  const FamilyIncomeCol := "family_income"

  // Columns written
  const ExtracurricularScoreCol := "extracurricular_score"
  const ParentEducationScoreCol := "parent_education_score"
  const PreviousScholarshipScoreCol := "previous_scholarship_score"
  const IncomeNeedScoreCol := "income_need_score"

  /** The name of the normalised copy of a feature. */
  function NormalizedName(feature: string): string { feature + "_normalized" }

  const FamilyIncomeNormCol := NormalizedName(FamilyIncomeCol)

  lemma NormalizedNameInjective(a: string, b: string)
    ensures NormalizedName(a) == NormalizedName(b) ==> a == b
  {
    if NormalizedName(a) == NormalizedName(b) {
      assert a == NormalizedName(a)[..|a|];
      assert b == NormalizedName(b)[..|b|];
    }
  }

  // ---------------------------------------------------------------------
  // Categorical encodings
  // ---------------------------------------------------------------------

  const YesNo: map<string, real> := map["Yes" := 1.0, "No" := 0.0]

  const EducationLevels: map<string, real> := map["High School" := 1.0, "Undergraduate" := 2.0, "Postgraduate" := 3.0]

  /** `Series.map(m)` on one cell: a text key of `m` becomes its number, anything else NaN. */
  function Encode(c: Cell, m: map<string, real>): (r: Cell)
    ensures !r.Text?
    ensures r.Num? <==> c.Text? && c.s in m
  {
    if c.Text? && c.s in m then Num(m[c.s]) else NaN
  }

  /** `df[dst] = df[src].map(m)`; a KeyError when `src` is absent. */
  function MapColumn(df: Frame, src: string, dst: string, m: map<string, real>): (r: Result<Frame>)
    requires WellFormed(df)
    ensures r.Ok? <==> src in df.columns
    ensures r.Err? ==> r.error == MissingColumn(src)
    ensures r.Ok? ==> && WellFormed(r.value) && r.value.columns == df.columns + {dst}
                      && KeepsColumns(df, r.value, {dst})
                      && forall i :: 0 <= i < |df.rows| ==> r.value.rows[i][dst] == Encode(df.rows[i][src], m)
  {
    if src !in df.columns then Err(MissingColumn(src))
    else Ok(SetColumn(df, dst, seq(|df.rows|, i requires 0 <= i < |df.rows| => Encode(df.rows[i][src], m))))
  }

  /** 'Yes' and 'No' become 1.0 and 0.0; every other cell becomes missing. */
  lemma YesNoEncoding(c: Cell)
    ensures Encode(Text("Yes"), YesNo) == Num(1.0) && Encode(Text("No"), YesNo) == Num(0.0)
    ensures c != Text("Yes") && c != Text("No") ==> Encode(c, YesNo) == NaN
    ensures Encode(c, YesNo) == NaN || Encode(c, YesNo) == Num(0.0) || Encode(c, YesNo) == Num(1.0)
  {
  }

  /** The three education levels become the ordinals 1, 2 and 3; every other cell becomes missing. */
  lemma EducationEncoding(c: Cell)
    ensures Encode(Text("High School"), EducationLevels) == Num(1.0)
    ensures Encode(Text("Undergraduate"), EducationLevels) == Num(2.0)
    ensures Encode(Text("Postgraduate"), EducationLevels) == Num(3.0)
    ensures c != Text("High School") && c != Text("Undergraduate") && c != Text("Postgraduate")
            ==> Encode(c, EducationLevels) == NaN
    ensures Encode(c, EducationLevels) == NaN || Encode(c, EducationLevels) in {Num(1.0), Num(2.0), Num(3.0)}
  {
  }

  // ---------------------------------------------------------------------
  // Min-max normalisation
  // ---------------------------------------------------------------------

  /** A (min, max) pair; a missing pair is the NaN bounds of a column with no numbers. */
  datatype Span = Span(lo: real, hi: real)

  /** `max_val > min_val`; false for NaN bounds. */
  predicate Spread(span: Option<Span>) { span.Some? && span.value.hi > span.value.lo }

  /** One feature to normalise and the range it is measured against. */
  datatype Feature = Feature(name: string, span: Option<Span>)

  /** The smallest and the largest present number, as `Series.min()` and `max()` skip NaN. */
  function Extremes(xs: seq<Option<real>>): (r: Option<Span>)
    ensures r.None? <==> forall i :: 0 <= i < |xs| ==> xs[i].None?
    ensures r.Some? ==> r.value.lo <= r.value.hi
    ensures r.Some? ==> forall i :: 0 <= i < |xs| && xs[i].Some? ==> r.value.lo <= xs[i].value <= r.value.hi
  {
    if xs == [] then None
    else
      var rest := Extremes(xs[1..]);
      assert forall i :: 1 <= i < |xs| ==> xs[i] == xs[1..][i - 1];
      match xs[0]
      case None => rest
      case Some(v) => if rest.None? then Some(Span(v, v)) else Some(Span(Min(v, rest.value.lo), Max(v, rest.value.hi)))
  }

  /** Both extremes are attained: `min()` and `max()` are values of the column. */
  lemma {:induction false} ExtremesAttained(xs: seq<Option<real>>)
    requires Extremes(xs).Some?
    ensures exists i :: 0 <= i < |xs| && xs[i] == Some(Extremes(xs).value.lo)
    ensures exists j :: 0 <= j < |xs| && xs[j] == Some(Extremes(xs).value.hi)
  {
    var rest := Extremes(xs[1..]);
    if xs[0].Some? && rest.Some? {
      ExtremesAttained(xs[1..]);
      var i :| 0 <= i < |xs[1..]| && xs[1..][i] == Some(rest.value.lo);
      var j :| 0 <= j < |xs[1..]| && xs[1..][j] == Some(rest.value.hi);
      assert xs[i + 1] == xs[1..][i] && xs[j + 1] == xs[1..][j];
    } else if xs[0].None? {
      ExtremesAttained(xs[1..]);
      var i :| 0 <= i < |xs[1..]| && xs[1..][i] == Some(rest.value.lo);
      var j :| 0 <= j < |xs[1..]| && xs[1..][j] == Some(rest.value.hi);
      assert xs[i + 1] == xs[1..][i] && xs[j + 1] == xs[1..][j];
    }
  }

  /** `(df[col].min(), df[col].max())`: a KeyError when absent, a TypeError on text. */
  function ColumnSpan(df: Frame, name: string): (r: Result<Option<Span>>)
    requires WellFormed(df)
    ensures r.Ok? <==> NumericIn(df, name)
    ensures r.Err? ==> r.error == if name in df.columns then NotNumeric(name) else MissingColumn(name)
    ensures r.Ok? ==> r.value == Extremes(NumberColumn(df, name))
  {
    var error := ColumnError(df, name);
    if error.Some? then Err(error.value) else Ok(Extremes(NumberColumn(df, name)))
  }

  /** The features normalised, in order, with the table's own family-income range. */
  function NumericalFeatures(income: Option<Span>): (fs: seq<Feature>)
    ensures |fs| == 8 && fs[5].name == FamilyIncomeCol && fs[5].span == income
    ensures forall k :: 0 <= k < |fs| && k != 5 ==> Spread(fs[k].span)
  {
    [ Feature("Hours Studied", Some(Span(0.0, 10.0))),
      Feature("Previous Scores", Some(Span(0.0, 100.0))),
      Feature("Sleep Hours", Some(Span(0.0, 10.0))),
      Feature("Sample Question Papers Practiced", Some(Span(0.0, 10.0))),
      Feature("Performance Index", Some(Span(0.0, 100.0))),
      Feature(FamilyIncomeCol, income),
      Feature("attendance_percentage", Some(Span(60.0, 100.0))),
      Feature(ParentEducationScoreCol, Some(Span(1.0, 3.0))) ]
  }

  /** `((x - min) / (max - min) * 100).clip(0, 100)` on one cell; NaN stays NaN. */
  function NormalizeCell(c: Cell, span: Span): (r: Cell)
    requires span.hi > span.lo && !c.Text?
    ensures r == NaN || (r.Num? && 0.0 <= r.v <= 100.0)
    ensures r == NaN <==> c == NaN
  {
    match c
    case Num(x) => Num(Clip((x - span.lo) / (span.hi - span.lo) * 100.0, 0.0, 100.0))
    case NaN => NaN
  }

  /** The normalised cell of one feature: the clipped ratio, or 50 for a degenerate range. */
  function FeatureCell(c: Cell, span: Option<Span>): (r: Cell)
    requires Spread(span) ==> !c.Text?
    ensures r == NaN || (r.Num? && 0.0 <= r.v <= 100.0)
  {
    if Spread(span) then NormalizeCell(c, span.value) else Num(50.0)
  }

  /** One pass of the loop: adds `<feature>_normalized` when the feature is a column. */
  function NormalizeFeature(d: Frame, f: Feature): (r: Result<Frame>)
    requires WellFormed(d)
    ensures r.Err? <==> f.name in d.columns && Spread(f.span) && !NumericIn(d, f.name)
    ensures r.Err? ==> r.error == NotNumeric(f.name)
    ensures r.Ok? ==> && WellFormed(r.value)
                      && r.value.columns == d.columns + (if f.name in d.columns then {NormalizedName(f.name)} else {})
                      && KeepsColumns(d, r.value, {NormalizedName(f.name)})
                      && (f.name in d.columns ==> forall i :: 0 <= i < |d.rows| ==>
                            (Spread(f.span) ==> !d.rows[i][f.name].Text?)
                            && r.value.rows[i][NormalizedName(f.name)] == FeatureCell(d.rows[i][f.name], f.span))
  {
    if f.name !in d.columns then Ok(d)
    else if !Spread(f.span) then
      Ok(SetColumn(d, NormalizedName(f.name), seq(|d.rows|, i => Num(50.0))))
    else if ColumnError(d, f.name).Some? then Err(NotNumeric(f.name))
    else
      Ok(SetColumn(d, NormalizedName(f.name),
                   seq(|d.rows|, i requires 0 <= i < |d.rows| => NormalizeCell(d.rows[i][f.name], f.span.value))))
  }

  /** The whole loop, feature by feature, stopping at the first exception. */
  function NormalizeAll(d: Frame, fs: seq<Feature>): (r: Result<Frame>)
    requires WellFormed(d)
    ensures r.Ok? ==> WellFormed(r.value) && |r.value.rows| == |d.rows|
    decreases |fs|
  {
    if fs == [] then Ok(d)
    else
      var d' :- NormalizeFeature(d, fs[0]);
      NormalizeAll(d', fs[1..])
  }

  /** No two features share a name, and no feature is itself a normalised column. */
  predicate DistinctNames(fs: seq<Feature>) {
    forall k, j :: 0 <= k < |fs| && 0 <= j < |fs| ==>
      (k != j ==> fs[k].name != fs[j].name) && fs[k].name != NormalizedName(fs[j].name)
  }

  /** The normalised columns the loop adds to a table with columns `cols`. */
  function NormalizedOf(cols: set<string>, fs: seq<Feature>): set<string> {
    set k | 0 <= k < |fs| && fs[k].name in cols :: NormalizedName(fs[k].name)
  }

  /** Every column the loop may write. */
  function NormalizedNames(fs: seq<Feature>): set<string> {
    set k | 0 <= k < |fs| :: NormalizedName(fs[k].name)
  }

  lemma DistinctTail(fs: seq<Feature>)
    requires |fs| > 0 && DistinctNames(fs)
    ensures DistinctNames(fs[1..])
  {
    forall k, j | 0 <= k < |fs| - 1 && 0 <= j < |fs| - 1
      ensures (k != j ==> fs[1..][k].name != fs[1..][j].name) && fs[1..][k].name != NormalizedName(fs[1..][j].name)
    {
      assert fs[1..][k] == fs[k + 1] && fs[1..][j] == fs[j + 1];
    }
  }

  /** The first pass neither adds nor alters the columns of the remaining features. */
  lemma FirstPassKeepsTail(d: Frame, fs: seq<Feature>)
    requires WellFormed(d) && DistinctNames(fs) && |fs| > 0 && NormalizeFeature(d, fs[0]).Ok?
    ensures DistinctNames(fs[1..])
    ensures var d' := NormalizeFeature(d, fs[0]).value;
      forall k :: 1 <= k < |fs| ==>
        && (fs[k].name in d'.columns <==> fs[k].name in d.columns)
        && (fs[k].name in d.columns ==>
              && (NumericIn(d', fs[k].name) <==> NumericIn(d, fs[k].name))
              && forall i :: 0 <= i < |d.rows| ==> d'.rows[i][fs[k].name] == d.rows[i][fs[k].name])
  {
    DistinctTail(fs);
    var d' := NormalizeFeature(d, fs[0]).value;
    forall k | 1 <= k < |fs| && fs[k].name in d.columns
      ensures NumericIn(d', fs[k].name) <==> NumericIn(d, fs[k].name)
    {
      assert fs[k].name != NormalizedName(fs[0].name);
    }
  }

  /** The loop fails exactly when a present feature with a proper range holds text. */
  lemma {:induction false} NormalizeAllFails(d: Frame, fs: seq<Feature>)
    requires WellFormed(d) && DistinctNames(fs)
    ensures NormalizeAll(d, fs).Err? <==>
            exists k :: 0 <= k < |fs| && fs[k].name in d.columns && Spread(fs[k].span) && !NumericIn(d, fs[k].name)
    decreases |fs|
  {
    if fs != [] && NormalizeFeature(d, fs[0]).Ok? {
      var d' := NormalizeFeature(d, fs[0]).value;
      FirstPassKeepsTail(d, fs);
      NormalizeAllFails(d', fs[1..]);
      assert forall k :: 1 <= k < |fs| ==> fs[k] == fs[1..][k - 1];
      if !NormalizeAll(d', fs[1..]).Err? {
        forall k | 0 <= k < |fs| && fs[k].name in d.columns && Spread(fs[k].span)
          ensures NumericIn(d, fs[k].name)
        {
          if k > 0 { assert fs[1..][k - 1] == fs[k]; }
        }
      }
    }
  }

  /** On success the loop adds one normalised column per present feature and keeps every other column. */
  lemma {:induction false} NormalizeAllColumns(d: Frame, fs: seq<Feature>)
    requires WellFormed(d) && DistinctNames(fs) && NormalizeAll(d, fs).Ok?
    ensures var r := NormalizeAll(d, fs).value;
      && r.columns == d.columns + NormalizedOf(d.columns, fs)
      && KeepsColumns(d, r, NormalizedNames(fs))
    decreases |fs|
  {
    if fs != [] {
      var d' := NormalizeFeature(d, fs[0]).value;
      var tail := fs[1..];
      FirstPassKeepsTail(d, fs);
      NormalizeAllColumns(d', tail);
      assert forall k :: 1 <= k < |fs| ==> fs[k] == tail[k - 1];
      var n0 := NormalizedName(fs[0].name);
      assert NormalizedOf(d'.columns, tail) == NormalizedOf(d.columns, tail);
      assert NormalizedOf(d.columns, fs) == (if fs[0].name in d.columns then {n0} else {}) + NormalizedOf(d.columns, tail);
      assert NormalizedNames(fs) == {n0} + NormalizedNames(tail);
    }
  }

  /** On success each present feature's normalised cell is computed from that feature's own cell. */
  lemma {:induction false} NormalizeAllCells(d: Frame, fs: seq<Feature>)
    requires WellFormed(d) && DistinctNames(fs) && NormalizeAll(d, fs).Ok?
    ensures var r := NormalizeAll(d, fs).value;
      forall k, i :: 0 <= k < |fs| && fs[k].name in d.columns && 0 <= i < |d.rows| ==>
        && (Spread(fs[k].span) ==> !d.rows[i][fs[k].name].Text?)
        && NormalizedName(fs[k].name) in r.rows[i]
        && r.rows[i][NormalizedName(fs[k].name)] == FeatureCell(d.rows[i][fs[k].name], fs[k].span)
    decreases |fs|
  {
    if fs != [] {
      var d' := NormalizeFeature(d, fs[0]).value;
      var tail := fs[1..];
      var r := NormalizeAll(d, fs).value;
      FirstPassKeepsTail(d, fs);
      NormalizeAllCells(d', tail);
      NormalizeAllColumns(d', tail);
      var n0 := NormalizedName(fs[0].name);
      forall k | 0 <= k < |tail| ensures NormalizedName(tail[k].name) != n0 {
        assert tail[k] == fs[k + 1];
        NormalizedNameInjective(tail[k].name, fs[0].name);
      }
      assert n0 !in NormalizedNames(tail);
      forall k, i | 0 <= k < |fs| && fs[k].name in d.columns && 0 <= i < |d.rows|
        ensures && (Spread(fs[k].span) ==> !d.rows[i][fs[k].name].Text?)
                && NormalizedName(fs[k].name) in r.rows[i]
                && r.rows[i][NormalizedName(fs[k].name)] == FeatureCell(d.rows[i][fs[k].name], fs[k].span)
      {
        if k > 0 { assert fs[k] == tail[k - 1]; }
      }
    }
  }

  lemma FeaturesDistinct(income: Option<Span>)
    ensures DistinctNames(NumericalFeatures(income))
  {
    var fs := NumericalFeatures(income);
    forall k, j | 0 <= k < |fs| && 0 <= j < |fs|
      ensures (k != j ==> fs[k].name != fs[j].name) && fs[k].name != NormalizedName(fs[j].name)
    {
      NotANormalizedName(fs[k].name, fs[j].name);
    }
  }

  /** A normalised name ends in "_normalized", so its third character from the end is 'z'. */
  lemma NotANormalizedName(name: string, feature: string)
    requires |name| < 3 || name[|name| - 3] != 'z'
    ensures name != NormalizedName(feature)
  {
    var n := NormalizedName(feature);
    assert n[|n| - 3] == "_normalized"[8] == 'z';
  }

  // ---------------------------------------------------------------------
  // Income need and the whole step
  // ---------------------------------------------------------------------

  /** `100 - x` on one cell; NaN stays NaN. */
  function Invert(c: Cell): (r: Cell)
    requires !c.Text?
    ensures !r.Text? && (r == NaN <==> c == NaN)
    ensures c.Num? ==> r.v + c.v == 100.0
  {
    if c.Num? then Num(100.0 - c.v) else NaN
  }

  /** `income_need_score`: 100 minus the normalised income when that column exists, 50 otherwise. */
  function IncomeNeed(d: Frame): (r: Result<Frame>)
    requires WellFormed(d)
    ensures r.Err? <==> FamilyIncomeNormCol in d.columns && !NumericIn(d, FamilyIncomeNormCol)
    ensures r.Err? ==> r.error == NotNumeric(FamilyIncomeNormCol)
    ensures r.Ok? ==> && WellFormed(r.value) && r.value.columns == d.columns + {IncomeNeedScoreCol}
                      && KeepsColumns(d, r.value, {IncomeNeedScoreCol})
                      && forall i :: 0 <= i < |d.rows| ==>
                           if FamilyIncomeNormCol in d.columns
                           then !d.rows[i][FamilyIncomeNormCol].Text? && r.value.rows[i][IncomeNeedScoreCol] == Invert(d.rows[i][FamilyIncomeNormCol])
                           else r.value.rows[i][IncomeNeedScoreCol] == Num(50.0)
  {
    if FamilyIncomeNormCol !in d.columns then
      Ok(SetColumn(d, IncomeNeedScoreCol, seq(|d.rows|, i => Num(50.0))))
    else if ColumnError(d, FamilyIncomeNormCol).Some? then Err(NotNumeric(FamilyIncomeNormCol))
    else
      Ok(SetColumn(d, IncomeNeedScoreCol,
                   seq(|d.rows|, i requires 0 <= i < |d.rows| => Invert(d.rows[i][FamilyIncomeNormCol]))))
  }

  /** The table after the three encodings, which the normalisation loop starts from. */
  function Encoded(df: Frame): (r: Result<Frame>)
    requires WellFormed(df)
    ensures r.Ok? ==> WellFormed(r.value)
  {
    var d1 :- MapColumn(df, ExtracurricularCol, ExtracurricularScoreCol, YesNo);
    var d2 :- MapColumn(d1, ParentEducationCol, ParentEducationScoreCol, EducationLevels);
    MapColumn(d2, PreviousScholarshipCol, PreviousScholarshipScoreCol, YesNo)
  }

  /** What `preprocess_data(df)` returns (or the exception it raises). */
  function Preprocessed(df: Frame): (r: Result<Frame>)
    requires WellFormed(df)
    ensures r.Ok? ==> WellFormed(r.value) && |r.value.rows| == |df.rows|
  {
    var d3 :- Encoded(df);
    var income :- ColumnSpan(d3, FamilyIncomeCol);
    var d4 :- NormalizeAll(d3, NumericalFeatures(income));
    IncomeNeed(d4)
  }

  // ---------------------------------------------------------------------
  // Properties of the whole step
  // ---------------------------------------------------------------------

  /** The three columns the encodings write. */
  const EncodedColumns: set<string> := {ExtracurricularScoreCol, ParentEducationScoreCol, PreviousScholarshipScoreCol}

  /** Every column the step may write. */
  const WrittenColumns: set<string> :=
    EncodedColumns + {IncomeNeedScoreCol} + NormalizedNames(NumericalFeatures(None))

  /** The raw columns the step reads are not among the ones it writes. */
  lemma RawNotWritten()
    ensures FamilyIncomeCol !in EncodedColumns && ExtracurricularCol !in EncodedColumns
    ensures ParentEducationCol !in EncodedColumns && PreviousScholarshipCol !in EncodedColumns
    ensures FamilyIncomeCol != IncomeNeedScoreCol && FamilyIncomeNormCol != IncomeNeedScoreCol
  {
  }

  /** Each encoding needs its source column; each fails with a KeyError naming the first one missing. */
  lemma EncodedFails(df: Frame)
    requires WellFormed(df)
    ensures Encoded(df).Ok? <==> ExtracurricularCol in df.columns && ParentEducationCol in df.columns && PreviousScholarshipCol in df.columns
    ensures ExtracurricularCol !in df.columns ==> Encoded(df) == Err(MissingColumn(ExtracurricularCol))
    ensures ExtracurricularCol in df.columns && ParentEducationCol !in df.columns ==> Encoded(df) == Err(MissingColumn(ParentEducationCol))
    ensures ExtracurricularCol in df.columns && ParentEducationCol in df.columns && PreviousScholarshipCol !in df.columns
            ==> Encoded(df) == Err(MissingColumn(PreviousScholarshipCol))
  {
  }

  /** The encoded table adds the three score columns, each the encoding of its raw column, and keeps the rest. */
  lemma EncodedTable(df: Frame)
    requires WellFormed(df) && Encoded(df).Ok?
    ensures var d := Encoded(df).value;
      && d.columns == df.columns + EncodedColumns
      && KeepsColumns(df, d, EncodedColumns)
      && forall i :: 0 <= i < |df.rows| ==>
           && d.rows[i][ExtracurricularScoreCol] == Encode(df.rows[i][ExtracurricularCol], YesNo)
           && d.rows[i][ParentEducationScoreCol] == Encode(df.rows[i][ParentEducationCol], EducationLevels)
           && d.rows[i][PreviousScholarshipScoreCol] == Encode(df.rows[i][PreviousScholarshipCol], YesNo)
  {
    var d1 := MapColumn(df, ExtracurricularCol, ExtracurricularScoreCol, YesNo);
    var d2 := MapColumn(d1.value, ParentEducationCol, ParentEducationScoreCol, EducationLevels);
    var d3 := MapColumn(d2.value, PreviousScholarshipCol, PreviousScholarshipScoreCol, YesNo);
    forall i | 0 <= i < |df.rows|
      ensures d3.value.rows[i][ExtracurricularScoreCol] == Encode(df.rows[i][ExtracurricularCol], YesNo)
      ensures d3.value.rows[i][ParentEducationScoreCol] == Encode(df.rows[i][ParentEducationCol], EducationLevels)
    {
      assert d1.value.rows[i][ParentEducationCol] == df.rows[i][ParentEducationCol];
      assert d2.value.rows[i][ExtracurricularScoreCol] == d1.value.rows[i][ExtracurricularScoreCol];
    }
  }

  lemma FeatureNamesFixed(income: Option<Span>)
    ensures |NumericalFeatures(income)| == |NumericalFeatures(None)|
    ensures forall k :: 0 <= k < |NumericalFeatures(income)| ==> NumericalFeatures(income)[k].name == NumericalFeatures(None)[k].name
  {
  }

  /** Features with the same names write the same columns. */
  lemma SameNames(cols: set<string>, fs: seq<Feature>, gs: seq<Feature>)
    requires |fs| == |gs| && forall k :: 0 <= k < |fs| ==> fs[k].name == gs[k].name
    ensures NormalizedOf(cols, fs) == NormalizedOf(cols, gs)
    ensures NormalizedNames(fs) == NormalizedNames(gs)
  {
  }

  /** The loop writes the same columns whatever the family-income range. */
  lemma WrittenNormalized(income: Option<Span>)
    ensures NormalizedNames(NumericalFeatures(income)) == NormalizedNames(NumericalFeatures(None))
    ensures forall c :: c in EncodedColumns + {IncomeNeedScoreCol} ==> c !in NormalizedNames(NumericalFeatures(income))
  {
    var fs, gs := NumericalFeatures(income), NumericalFeatures(None);
    assert forall k :: 0 <= k < |fs| ==> fs[k].name == gs[k].name;
    forall c, k | c in EncodedColumns + {IncomeNeedScoreCol} && 0 <= k < |fs|
      ensures c != NormalizedName(fs[k].name)
    {
      NotANormalizedName(c, fs[k].name);
    }
  }

  /** A successful run had the four raw columns every run reads: the three categorical ones and family_income. */
  lemma PreprocessedReads(df: Frame)
    requires WellFormed(df) && Preprocessed(df).Ok?
    ensures && ExtracurricularCol in df.columns && ParentEducationCol in df.columns
            && PreviousScholarshipCol in df.columns && FamilyIncomeCol in df.columns
  {
    RawNotWritten();
    EncodedFails(df);
  }

  /** A failed encoding is the step's exception; after it, a missing family income is a KeyError. */
  lemma {:induction false} PreprocessedErrors(df: Frame)
    requires WellFormed(df)
    ensures Encoded(df).Err? ==> Preprocessed(df) == Err(Encoded(df).error)
    ensures Encoded(df).Ok? && FamilyIncomeCol !in df.columns ==> Preprocessed(df) == Err(MissingColumn(FamilyIncomeCol))
  {
    RawNotWritten();
    EncodedFails(df);
  }

  /** The normalisation loop took `d3` to `d4`, and the income-need step took `d4` to `out`. */
  predicate LoopSteps(d3: Frame, fs: seq<Feature>, d4: Frame, out: Frame) {
    WellFormed(d3) && DistinctNames(fs) && NormalizeAll(d3, fs) == Ok(d4) && IncomeNeed(d4) == Ok(out)
  }

  /** `fs` normalises the same columns as the step's feature list. */
  predicate FeatureNamesOf(fs: seq<Feature>) {
    |fs| == |NumericalFeatures(None)| && forall k :: 0 <= k < |fs| ==> fs[k].name == NumericalFeatures(None)[k].name
  }

  /** The intermediate tables of a successful run. */
  lemma Stages(df: Frame) returns (d3: Frame, fs: seq<Feature>, d4: Frame)
    requires WellFormed(df) && Preprocessed(df).Ok?
    ensures WellFormed(d3) && WellFormed(d4) && Encoded(df) == Ok(d3) && d3.columns == df.columns + EncodedColumns
    ensures NumericIn(d3, FamilyIncomeCol) && fs == NumericalFeatures(Extremes(NumberColumn(d3, FamilyIncomeCol)))
    ensures DistinctNames(fs) && NormalizeAll(d3, fs) == Ok(d4) && Preprocessed(df) == IncomeNeed(d4)
    ensures LoopSteps(d3, fs, d4, Preprocessed(df).value) && FeatureNamesOf(fs)
  {
    RawNotWritten();
    EncodedTable(df);
    d3 := Encoded(df).value;
    fs := NumericalFeatures(ColumnSpan(d3, FamilyIncomeCol).value);
    FeaturesDistinct(ColumnSpan(d3, FamilyIncomeCol).value);
    FeatureNamesFixed(ColumnSpan(d3, FamilyIncomeCol).value);
    d4 := NormalizeAll(d3, fs).value;
  }

  /**
   * On success the table gains the encoded columns and the income need, and
   * the normalised column of exactly the features it has.
   */
  lemma PreprocessedColumns(df: Frame)
    requires WellFormed(df) && Preprocessed(df).Ok?
    ensures Preprocessed(df).value.columns
         == df.columns + EncodedColumns + NormalizedOf(df.columns + EncodedColumns, NumericalFeatures(None)) + {IncomeNeedScoreCol}
    ensures FamilyIncomeNormCol in Preprocessed(df).value.columns
  {
    RawNotWritten();
    EncodedTable(df);
    var d3, fs, d4 := Stages(df);
    NormalizeAllColumns(d3, fs);
    assert d4.columns == d3.columns + NormalizedOf(d3.columns, fs);
    FeatureNamesFixed(fs[5].span);
    SameNames(d3.columns, fs, NumericalFeatures(None));
    assert FamilyIncomeNormCol in NormalizedOf(d3.columns, fs) by {
      assert fs[5].name == FamilyIncomeCol;
    }
  }

  /** On success every column outside the written ones keeps its values: the step works on a copy. */
  lemma PreprocessedKeepsColumns(df: Frame)
    requires WellFormed(df) && Preprocessed(df).Ok?
    ensures KeepsColumns(df, Preprocessed(df).value, WrittenColumns)
  {
    RawNotWritten();
    EncodedTable(df);
    var d3, fs, d4 := Stages(df);
    NormalizeAllColumns(d3, fs);
    WrittenNormalized(fs[5].span);
    var out := Preprocessed(df).value;
    KeepsColumnsCompose(df, d3, d4, EncodedColumns, NormalizedNames(fs), EncodedColumns + NormalizedNames(fs));
    KeepsColumnsCompose(df, d4, out, EncodedColumns + NormalizedNames(fs), {IncomeNeedScoreCol}, WrittenColumns);
  }

  /** A normalised score: missing, or in [0, 100]. */
  predicate Percent(c: Cell) { c == NaN || (c.Num? && 0.0 <= c.v <= 100.0) }

  /** Each row of a successful run carries the three encodings of its own raw values. */
  lemma PreprocessedEncodings(df: Frame, i: int)
    requires WellFormed(df) && Preprocessed(df).Ok? && 0 <= i < |df.rows|
    ensures var row := Preprocessed(df).value.rows[i];
      && ExtracurricularScoreCol in row && ParentEducationScoreCol in row && PreviousScholarshipScoreCol in row
      && row[ExtracurricularScoreCol] == Encode(df.rows[i][ExtracurricularCol], YesNo)
      && row[ParentEducationScoreCol] == Encode(df.rows[i][ParentEducationCol], EducationLevels)
      && row[PreviousScholarshipScoreCol] == Encode(df.rows[i][PreviousScholarshipCol], YesNo)
  {
    RawNotWritten();
    EncodedTable(df);
    var d3, fs, d4 := Stages(df);
    NormalizeAllColumns(d3, fs);
    WrittenNormalized(fs[5].span);
    var out := Preprocessed(df).value;
    KeepsLater(d3, d4, out, NormalizedNames(fs), i);
  }

  /** The encoded cells of `d3` survive the normalisation loop and the income-need step. */
  lemma KeepsLater(d3: Frame, d4: Frame, out: Frame, written: set<string>, i: int)
    requires KeepsColumns(d3, d4, written) && KeepsColumns(d4, out, {IncomeNeedScoreCol})
    requires forall c :: c in EncodedColumns ==> c !in written
    requires 0 <= i < |d3.rows| && d3.columns == d3.rows[i].Keys && EncodedColumns <= d3.columns
    ensures forall c :: c in EncodedColumns ==> c in out.rows[i] && out.rows[i][c] == d3.rows[i][c]
  {
    KeepsColumnsCompose(d3, d4, out, written, {IncomeNeedScoreCol}, written + {IncomeNeedScoreCol});
    forall c | c in EncodedColumns ensures c in out.rows[i] && out.rows[i][c] == d3.rows[i][c] {
      assert c in d3.rows[i] && c !in written + {IncomeNeedScoreCol};
    }
  }

  /**
   * In each row of a successful run, the normalised column of every feature
   * the table has holds a score in [0, 100], or NaN.
   */
  lemma PreprocessedNormalized(df: Frame, i: int, k: int)
    requires WellFormed(df) && Preprocessed(df).Ok? && 0 <= i < |df.rows| && 0 <= k < |NumericalFeatures(None)|
    requires NumericalFeatures(None)[k].name in df.columns + EncodedColumns
    ensures var row, name := Preprocessed(df).value.rows[i], NormalizedName(NumericalFeatures(None)[k].name);
      name in row && Percent(row[name])
  {
    var d3, fs, d4 := Stages(df);
    FeatureCells(d3, fs, d4, Preprocessed(df).value, i, k);
  }

  /** A present feature's normalised cell after the loop survives the income-need step. */
  lemma FeatureCells(d3: Frame, fs: seq<Feature>, d4: Frame, out: Frame, i: int, k: int)
    requires LoopSteps(d3, fs, d4, out)
    requires 0 <= k < |fs| && fs[k].name in d3.columns && 0 <= i < |d3.rows|
    ensures NormalizedName(fs[k].name) in out.rows[i] && Percent(out.rows[i][NormalizedName(fs[k].name)])
  {
    NormalizeAllCells(d3, fs);
    NotANormalizedName(IncomeNeedScoreCol, fs[k].name);
  }

  /** The range's own ends normalise to 0 and 100. */
  lemma NormalizeEnds(span: Span)
    requires span.hi > span.lo
    ensures NormalizeCell(Num(span.lo), span) == Num(0.0)
    ensures NormalizeCell(Num(span.hi), span) == Num(100.0)
  {
    var d := span.hi - span.lo;
    assert (span.hi - span.lo) / d == 1.0 && (span.lo - span.lo) / d == 0.0;
  }

  /** The income cells after the loop and the income-need step, for a row whose income has range `span`. */
  lemma IncomeCells(d3: Frame, fs: seq<Feature>, d4: Frame, out: Frame, i: int)
    requires LoopSteps(d3, fs, d4, out)
    requires 5 < |fs| && fs[5].name == FamilyIncomeCol && FamilyIncomeCol in d3.columns && 0 <= i < |d3.rows|
    ensures FamilyIncomeNormCol in out.rows[i] && IncomeNeedScoreCol in out.rows[i]
    ensures Spread(fs[5].span) ==> !d3.rows[i][FamilyIncomeCol].Text?
    ensures out.rows[i][FamilyIncomeNormCol] == FeatureCell(d3.rows[i][FamilyIncomeCol], fs[5].span)
    ensures out.rows[i][IncomeNeedScoreCol] == Invert(out.rows[i][FamilyIncomeNormCol])
  {
    NormalizeAllCells(d3, fs);
    NotANormalizedName(IncomeNeedScoreCol, FamilyIncomeCol);
  }

  /**
   * In each row of a successful run the income need is 100 minus the
   * normalised income; both are scores in [0, 100], or both are NaN.
   */
  lemma PreprocessedNeed(df: Frame, i: int)
    requires WellFormed(df) && Preprocessed(df).Ok? && 0 <= i < |df.rows|
    ensures var row := Preprocessed(df).value.rows[i];
      && FamilyIncomeNormCol in row && IncomeNeedScoreCol in row
      && !row[FamilyIncomeNormCol].Text? && row[IncomeNeedScoreCol] == Invert(row[FamilyIncomeNormCol])
      && Percent(row[FamilyIncomeNormCol]) && Percent(row[IncomeNeedScoreCol])
      && (row[FamilyIncomeNormCol] == NaN <==> row[IncomeNeedScoreCol] == NaN)
  {
    var d3, fs, d4 := Stages(df);
    IncomeCells(d3, fs, d4, Preprocessed(df).value, i);
  }

  /**
   * The family income is scaled against the table's own range: the row with
   * the lowest income gets normalised score 0 and need 100, the highest gets
   * 100 and 0; when all incomes are equal or missing every row gets 50 and 50.
   */
  lemma PreprocessedIncome(df: Frame, i: int)
    requires WellFormed(df) && Preprocessed(df).Ok? && 0 <= i < |df.rows|
    ensures FamilyIncomeCol in df.columns
    ensures var span, row := Extremes(NumberColumn(df, FamilyIncomeCol)), Preprocessed(df).value.rows[i];
      && FamilyIncomeNormCol in row && IncomeNeedScoreCol in row
      && (!Spread(span) ==> row[FamilyIncomeNormCol] == Num(50.0) && row[IncomeNeedScoreCol] == Num(50.0))
      && (Spread(span) && df.rows[i][FamilyIncomeCol] == Num(span.value.lo) ==>
            row[FamilyIncomeNormCol] == Num(0.0) && row[IncomeNeedScoreCol] == Num(100.0))
      && (Spread(span) && df.rows[i][FamilyIncomeCol] == Num(span.value.hi) ==>
            row[FamilyIncomeNormCol] == Num(100.0) && row[IncomeNeedScoreCol] == Num(0.0))
  {
    PreprocessedReads(df);
    RawNotWritten();
    EncodedTable(df);
    var d3, fs, d4 := Stages(df);
    FeatureNamesFixed(fs[5].span);
    assert NumberColumn(d3, FamilyIncomeCol) == NumberColumn(df, FamilyIncomeCol);
    IncomeCells(d3, fs, d4, Preprocessed(df).value, i);
    var span := fs[5].span;
    assert d3.rows[i][FamilyIncomeCol] == df.rows[i][FamilyIncomeCol];
    if Spread(span) {
      NormalizeEnds(span.value);
    }
  }

  // ---------------------------------------------------------------------
  // Feature explanations
  // ---------------------------------------------------------------------

  /** The human-readable description of each known feature. */
  const Explanations: map<string, string> := map[
    "Performance Index" := "Overall academic performance (0-100)",
    "Previous Scores" := "Historical academic achievement (0-100)",
    FamilyIncomeCol := "Annual family income (lower = higher need)",
    ParentEducationCol := "Highest education level of parents",
    "attendance_percentage" := "Class attendance rate (60-100%)",
    ExtracurricularCol := "Participation in extracurriculars",
    PreviousScholarshipCol := "Previously received scholarship assistance"]

  /** The text given for any other name. */
  const DefaultExplanation := "Feature score"

  /** `get_feature_explanation`: the feature's own text; only names without one get the default. */
  function FeatureExplanation(name: string): (r: string)
    ensures r == DefaultExplanation <==> name !in Explanations
    ensures name in Explanations ==> r == Explanations[name]
  {
    if name in Explanations then Explanations[name] else DefaultExplanation
  }

  /** Seven features are described, among them the four raw columns every run reads (the three categorical ones and family_income). */
  lemma ExplainedFeatures()
    ensures |Explanations| == 7
    ensures forall c :: c in [ExtracurricularCol, ParentEducationCol, PreviousScholarshipCol, FamilyIncomeCol] ==>
              FeatureExplanation(c) != DefaultExplanation
  {
    assert Explanations.Keys == {"Performance Index", "Previous Scores", FamilyIncomeCol, ParentEducationCol,
                                 "attendance_percentage", ExtracurricularCol, PreviousScholarshipCol};
  }

  /** The columns the step derives, and features without a text, get the default. */
  lemma DerivedUnexplained()
    ensures FeatureExplanation("Sleep Hours") == DefaultExplanation
    ensures forall c :: c in EncodedColumns + {IncomeNeedScoreCol, FamilyIncomeNormCol} ==> FeatureExplanation(c) == DefaultExplanation
  {
  }

  // ---------------------------------------------------------------------
  // The processor object
  // ---------------------------------------------------------------------

  class ScholarshipDataProcessor {
    /** The categorical mappings applied so far, by source column. */
    var categoricalMappings: map<string, map<string, real>>

    constructor()
      ensures categoricalMappings == map[]
    {
      categoricalMappings := map[];
    }

    /**
     * `preprocess_data(df)`: returns what `Preprocessed` describes. The
     * parent-education mapping is recorded once both encodings before it
     * have run, even when a later step raises.
     */
    method PreprocessData(df: Frame) returns (r: Result<Frame>)
      requires WellFormed(df)
      modifies this
      ensures r == Preprocessed(df)
      ensures categoricalMappings ==
                if ExtracurricularCol in df.columns && ParentEducationCol in df.columns
                then old(categoricalMappings)[ParentEducationCol := EducationLevels]
                else old(categoricalMappings)
    {
      RawNotWritten();
      var d1 := MapColumn(df, ExtracurricularCol, ExtracurricularScoreCol, YesNo);
      if d1.Err? { return Err(d1.error); }
      var d2 := MapColumn(d1.value, ParentEducationCol, ParentEducationScoreCol, EducationLevels);
      if d2.Err? { return Err(d2.error); }
      categoricalMappings := categoricalMappings[ParentEducationCol := EducationLevels];
      var d3 := MapColumn(d2.value, PreviousScholarshipCol, PreviousScholarshipScoreCol, YesNo);
      if d3.Err? { return Err(d3.error); }
      var income := ColumnSpan(d3.value, FamilyIncomeCol);
      if income.Err? { return Err(income.error); }
      var features := NumericalFeatures(income.value);
      var d := d3.value;
      for i := 0 to |features|
        invariant WellFormed(d)
        invariant NormalizeAll(d3.value, features) == NormalizeAll(d, features[i..])
      {
        assert features[i..][0] == features[i] && features[i..][1..] == features[i + 1..];
        var step := NormalizeFeature(d, features[i]);
        if step.Err? { return Err(step.error); }
        d := step.value;
      }
      r := IncomeNeed(d);
    }
  }
}
