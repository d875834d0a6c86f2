/**
 * The ordering behind `sort_values(col, ascending=False)`: highest value
 * first, missing values last. The library sort is not stable, so the model
 * fixes one order (insertion sort) and promises only what any such sort
 * gives: the result is ordered and is a permutation of the input.
 */
module Ranking {
  import opened Wrappers
  import opened Tables

  /** The sort key of a row: its number in column `col`, missing otherwise. */
  function Key(row: Row, col: string): Option<real> {
    if col in row then AsNumber(row[col]) else None
  }

  /** `a` may come before `b` in a descending order with missing values last. */
  predicate Precedes(a: Option<real>, b: Option<real>) {
    match a
    case None => b.None?
    case Some(x) => b.None? || x >= b.value
  }

  predicate SortedDesc(rows: seq<Row>, col: string) {
    forall i, j :: 0 <= i < j < |rows| ==> Precedes(Key(rows[i], col), Key(rows[j], col))
  }

  /** Places `x` before the first row it may precede: the rows of `s` plus `x`. */
  function Insert(x: Row, s: seq<Row>, col: string): (r: seq<Row>)
    ensures multiset(r) == multiset(s) + multiset{x}
  {
    if s == [] then [x]
    else if Precedes(Key(x, col), Key(s[0], col)) then [x] + s
    else
      assert s == [s[0]] + s[1..];
      [s[0]] + Insert(x, s[1..], col)
  }

  /** Insertion sort by descending key: a rearrangement of `s`. */
  function SortRows(s: seq<Row>, col: string): (r: seq<Row>)
    ensures multiset(r) == multiset(s)
  {
    if s == [] then []
    else
      assert s == [s[0]] + s[1..];
      Insert(s[0], SortRows(s[1..], col), col)
  }

  /** Every row of `rows` may follow a row with key `h`. */
  predicate AllFollow(h: Option<real>, rows: seq<Row>, col: string) {
    forall j :: 0 <= j < |rows| ==> Precedes(h, Key(rows[j], col))
  }

  lemma PrecedesTransitive(a: Option<real>, b: Option<real>, c: Option<real>)
    requires Precedes(a, b) && Precedes(b, c)
    ensures Precedes(a, c)
  {
  }

  /** A non-empty sequence is sorted exactly when its head may precede its tail and the tail is sorted. */
  lemma SortedCons(x: Row, s: seq<Row>, col: string)
    ensures SortedDesc([x] + s, col) <==> AllFollow(Key(x, col), s, col) && SortedDesc(s, col)
  {
    var t := [x] + s;
    if AllFollow(Key(x, col), s, col) && SortedDesc(s, col) {
      forall i, j | 0 <= i < j < |t| ensures Precedes(Key(t[i], col), Key(t[j], col)) {
        assert t[j] == s[j - 1];
        if i > 0 { assert t[i] == s[i - 1]; }
      }
    }
    if SortedDesc(t, col) {
      forall i, j | 0 <= i < j < |s| ensures Precedes(Key(s[i], col), Key(s[j], col)) {
        assert s[i] == t[i + 1] && s[j] == t[j + 1];
      }
      forall j | 0 <= j < |s| ensures Precedes(Key(x, col), Key(s[j], col)) {
        assert t[0] == x && s[j] == t[j + 1];
        assert Precedes(Key(t[0], col), Key(t[j + 1], col));
      }
    }
  }

  lemma {:induction false} InsertFollows(h: Option<real>, x: Row, s: seq<Row>, col: string)
    requires AllFollow(h, s, col) && Precedes(h, Key(x, col))
    ensures AllFollow(h, Insert(x, s, col), col)
  {
    if s != [] && !Precedes(Key(x, col), Key(s[0], col)) {
      assert AllFollow(h, s[1..], col) by {
        forall j | 0 <= j < |s| - 1 ensures Precedes(h, Key(s[1..][j], col)) {
          assert s[1..][j] == s[j + 1];
        }
      }
      InsertFollows(h, x, s[1..], col);
      var u := Insert(x, s[1..], col);
      forall j | 0 <= j < |u| + 1 ensures Precedes(h, Key(([s[0]] + u)[j], col)) {
        if j > 0 { assert ([s[0]] + u)[j] == u[j - 1]; } else { assert Precedes(h, Key(s[0], col)); }
      }
    }
  }

  lemma {:induction false} InsertSorted(x: Row, s: seq<Row>, col: string)
    requires SortedDesc(s, col)
    ensures SortedDesc(Insert(x, s, col), col)
  {
    if s == [] {
    } else if Precedes(Key(x, col), Key(s[0], col)) {
      SortedCons(s[0], s[1..], col);
      assert [s[0]] + s[1..] == s;
      forall j | 0 <= j < |s| ensures Precedes(Key(x, col), Key(s[j], col)) {
        if j > 0 { PrecedesTransitive(Key(x, col), Key(s[0], col), Key(s[j], col)); }
      }
      SortedCons(x, s, col);
    } else {
      SortedCons(s[0], s[1..], col);
      assert [s[0]] + s[1..] == s;
      InsertSorted(x, s[1..], col);
      InsertFollows(Key(s[0], col), x, s[1..], col);
      SortedCons(s[0], Insert(x, s[1..], col), col);
    }
  }

  /** The sorted rows are in descending key order and are the input rows rearranged. */
  lemma {:induction false} SortRowsCorrect(s: seq<Row>, col: string)
    ensures SortedDesc(SortRows(s, col), col)
    ensures multiset(SortRows(s, col)) == multiset(s)
  {
    if s != [] {
      SortRowsCorrect(s[1..], col);
      InsertSorted(s[0], SortRows(s[1..], col), col);
    }
  }
}
