/**
 * The applicant table. A pandas DataFrame is a set of named columns and a
 * sequence of rows; every row has a cell in every column. A cell holds a
 * number, a text value, or NaN (missing). Column presence is a property of
 * the table, so reading an absent column fails even when there are no rows.
 */
module Tables {
  import opened Wrappers

  datatype Cell = Num(v: real) | Text(s: string) | NaN

  type Row = map<string, Cell>

  datatype Frame = Frame(columns: set<string>, rows: seq<Row>)

  /** Every row has exactly the table's columns. */
  predicate WellFormed(df: Frame) {
    forall i :: 0 <= i < |df.rows| ==> df.rows[i].Keys == df.columns
  }

  /** The exceptions the core raises. */
  datatype Error =
    | InvalidWeights(total: real)   // ValueError from the weight check, reporting the sum
    | MissingColumn(name: string)   // KeyError: the column or field does not exist
    | NotNumeric(name: string)      // TypeError: arithmetic or comparison on a text value
    | NotFormattable(name: string)  // ValueError: a thousands-separated number format applied to text

  datatype Result<+T> = Ok(value: T) | Err(error: Error) {
    predicate IsFailure() { Err? }
    function PropagateFailure<U>(): Result<U>
      requires Err?
    {
      Err(error)
    }
    function Extract(): T
      requires Ok?
    {
      value
    }
  }

  /** The numeric reading of a cell: NaN (and text, which callers rule out first) is missing. */
  function AsNumber(c: Cell): Option<real> {
    match c
    case Num(v) => Some(v)
    case _ => None
  }

  /** The cell that stores a possibly missing number. */
  function OptCell(x: Option<real>): (c: Cell)
    ensures AsNumber(c) == x && !c.Text?
  {
    match x
    case Some(v) => Num(v)
    case None => NaN
  }

  /** The column exists and holds no text, so pandas arithmetic on it succeeds. */
  predicate NumericIn(df: Frame, name: string) {
    && name in df.columns
    && forall i :: 0 <= i < |df.rows| ==> name in df.rows[i] && !df.rows[i][name].Text?
  }

  /** The exception raised by arithmetic on column `name`, if any. */
  function ColumnError(df: Frame, name: string): (e: Option<Error>)
    requires WellFormed(df)
    ensures e.None? <==> NumericIn(df, name)
    ensures e.Some? ==> e.value == if name in df.columns then NotNumeric(name) else MissingColumn(name)
  {
    if name !in df.columns then Some(MissingColumn(name))
    else if exists i :: 0 <= i < |df.rows| && df.rows[i][name].Text? then Some(NotNumeric(name))
    else None
  }

  /** The first exception raised when the columns `names` are used in this order. */
  function FirstColumnError(df: Frame, names: seq<string>): (e: Option<Error>)
    requires WellFormed(df)
    ensures e.None? <==> forall k :: 0 <= k < |names| ==> NumericIn(df, names[k])
    ensures e.Some? ==> exists k :: 0 <= k < |names| && e == ColumnError(df, names[k]) && !NumericIn(df, names[k])
                                    && forall j :: 0 <= j < k ==> NumericIn(df, names[j])
  {
    if names == [] then None
    else if ColumnError(df, names[0]).Some? then ColumnError(df, names[0])
    else
      var rest := FirstColumnError(df, names[1..]);
      assert forall k :: 1 <= k < |names| ==> names[k] == names[1..][k - 1];
      rest
  }

  /** A numeric column as a sequence of possibly missing numbers. */
  function NumberColumn(df: Frame, name: string): (col: seq<Option<real>>)
    requires WellFormed(df) && name in df.columns
    ensures |col| == |df.rows|
    ensures forall i :: 0 <= i < |df.rows| ==> col[i] == AsNumber(df.rows[i][name])
  {
    seq(|df.rows|, i requires 0 <= i < |df.rows| => AsNumber(df.rows[i][name]))
  }

  /** `df[name] = col`: adds the column, or overwrites it when it exists. */
  function SetColumn(df: Frame, name: string, col: seq<Cell>): (r: Frame)
    requires WellFormed(df) && |col| == |df.rows|
    ensures WellFormed(r)
    ensures r.columns == df.columns + {name} && |r.rows| == |df.rows|
    ensures forall i :: 0 <= i < |df.rows| ==> r.rows[i] == df.rows[i][name := col[i]]
  {
    Frame(df.columns + {name}, seq(|df.rows|, i requires 0 <= i < |df.rows| => df.rows[i][name := col[i]]))
  }

  /** The columns of `df` outside `written` keep every value in `r`. */
  predicate KeepsColumns(df: Frame, r: Frame, written: set<string>) {
    && |r.rows| == |df.rows|
    && df.columns <= r.columns
    && forall i, c :: 0 <= i < |df.rows| && c in df.rows[i] && c !in written ==>
         c in r.rows[i] && r.rows[i][c] == df.rows[i][c]
  }

  /** Keeping columns composes: what two steps leave alone, their sequence leaves alone. */
  lemma KeepsColumnsCompose(a: Frame, b: Frame, c: Frame, w1: set<string>, w2: set<string>, w: set<string>)
    requires KeepsColumns(a, b, w1) && KeepsColumns(b, c, w2) && w1 + w2 <= w
    ensures KeepsColumns(a, c, w)
  {
  }
}
