/**
 * The first part of the recommendation page (pages/rec.py:18-43): the anime
 * table is cut down to the acclaimed titles with complete data, and the row
 * of the anime the user picked is looked up.
 */
module Cleaning {
  import opened Strings
  import opened Table

  /** Columns the page drops before anything else. */
  const Unused: seq<string> := ["Image URL", "Premiered", "Aired", "Status", "Duration", "Rating"]

  /** Only titles scored strictly above this stay in the pool. */
  const ScoreFloor: real := 8.0

  /** A row in which no cell is NaN or the text 'UNKNOWN'. */
  predicate Known(row: seq<Cell>)
  {
    forall c | c in row :: c != Missing && c != Text("UNKNOWN")
  }

  /** `df.replace('UNKNOWN', np.nan).dropna()`: every row with a NaN or an
      'UNKNOWN' cell in one of the remaining columns goes, the others stay in
      their order. */
  function DropUnknown(df: Frame): (r: Frame)
    requires WellFormed(df)
    ensures WellFormed(r) && r.columns == df.columns
    ensures forall row :: row in r.rows <==> row in df.rows && Known(row)
    ensures IsSubsequence(r.rows, df.rows)
  {
    Frame(df.columns, Filter(df.rows, Known))
  }

  /** Every known row is kept as often as the table holds it. */
  lemma DropUnknownCounts(df: Frame)
    requires WellFormed(df)
    ensures forall row :: multiset(DropUnknown(df).rows)[row] == if Known(row) then multiset(df.rows)[row] else 0
  {
    FilterCounts(df.rows, Known);
  }

  /** A cell that `astype(float)` accepts: a number, or NaN. */
  predicate FloatLike(c: Cell)
  {
    c.Num? || c.Missing?
  }

  /** The score in column `j` is a number above the floor (NaN compares false). */
  predicate Acclaimed(row: seq<Cell>, j: nat)
  {
    j < |row| && row[j].Num? && row[j].x > ScoreFloor
  }

  /** `df[df['Score'].astype(float) > 8]`: a KeyError without a Score column,
      a ValueError if any score is not a number, else the rows scored above 8. */
  function KeepAcclaimed(df: Frame): (r: Outcome<Frame>)
    requires WellFormed(df)
    ensures r.Fail? <==> "Score" !in df.columns
                         || exists row | row in df.rows :: !FloatLike(row[Col(df.columns, "Score")])
    ensures "Score" !in df.columns ==> r == Fail(KeyError("Score"))
    ensures "Score" in df.columns && r.Fail? ==> r == Fail(ValueError)
    ensures r.Ok? ==> WellFormed(r.value) && r.value.columns == df.columns
    ensures r.Ok? ==> forall row :: row in r.value.rows <==> row in df.rows && Acclaimed(row, Col(df.columns, "Score"))
    ensures r.Ok? ==> IsSubsequence(r.value.rows, df.rows)
  {
    if "Score" !in df.columns then Fail(KeyError("Score"))
    else
      var j := Col(df.columns, "Score");
      if forall row | row in df.rows :: FloatLike(row[j]) then
        Ok(Frame(df.columns, Filter(df.rows, (row: seq<Cell>) => Acclaimed(row, j))))
      else Fail(ValueError)
  }

  /** Every row scored above the floor is kept as often as the table holds
      it. */
  lemma KeepAcclaimedCounts(df: Frame)
    requires WellFormed(df) && KeepAcclaimed(df).Ok?
    ensures "Score" in df.columns
    ensures forall row :: multiset(KeepAcclaimed(df).value.rows)[row] ==
                            if Acclaimed(row, Col(df.columns, "Score")) then multiset(df.rows)[row] else 0
  {
    var j := Col(df.columns, "Score");
    FilterCounts(df.rows, (row: seq<Cell>) => Acclaimed(row, j));
  }

  /** The pool the page recommends from (rec.py:18-24). */
  function Clean(loaded: Frame): (r: Outcome<Frame>)
    requires WellFormed(loaded)
    ensures r.Ok? ==> WellFormed(r.value)
    ensures r.Ok? ==> forall c | c in Unused :: c !in r.value.columns
    ensures r.Ok? ==> "Score" in r.value.columns
    ensures r.Ok? ==> forall row | row in r.value.rows :: Known(row) && Acclaimed(row, Col(r.value.columns, "Score"))
  {
    var kept :- Drop(loaded, Unused);
    KeepAcclaimed(DropUnknown(kept))
  }

  /** A label that is kept by a drop still finds the same cells. */
  lemma DropKeepsColumn(df: Frame, names: seq<string>, key: string)
    requires WellFormed(df) && Drop(df, names).Ok?
    requires key in df.columns && key !in names
    ensures key in Drop(df, names).value.columns
    ensures var r := Drop(df, names).value;
            forall i | 0 <= i < |df.rows| :: r.rows[i][Col(r.columns, key)] == df.rows[i][Col(df.columns, key)]
  {
    var r := Drop(df, names).value;
    var ps := Keep(df.columns, names);
    var j := Col(df.columns, key);
    assert j in ps;
    var k :| 0 <= k < |ps| && ps[k] == j;
    assert r.columns[k] == key;
    var k' := Col(r.columns, key);
    assert k' == k by {
      assert df.columns[ps[k']] == key;
    }
  }

  /** The user's pick: which row, its id, and its genres. */
  datatype Query = Query(row: nat, id: Cell, genres: seq<string>)

  /** First row whose cell in column `j` equals `v`. */
  function FirstMatch(rows: seq<seq<Cell>>, j: nat, v: Cell): (r: Option<nat>)
    requires forall row | row in rows :: j < |row|
    ensures r.None? <==> forall i | 0 <= i < |rows| :: rows[i][j] != v
    ensures r.Some? ==> r.value < |rows| && rows[r.value][j] == v
    ensures r.Some? ==> forall i | 0 <= i < r.value :: rows[i][j] != v
  {
    if rows == [] then None
    else if rows[0][j] == v then Some(0)
    else match FirstMatch(rows[1..], j, v)
      case None => None
      case Some(k) => Some(k + 1)
  }

  /** rec.py:41-43: the first row whose English name is the picked one, its
      anime_id, and its Genres text split on ", ". Errors in the order Python
      meets them: no English name column, no matching row, no anime_id
      column, no Genres column, a Genres cell that is not a string. */
  function SelectQuery(df: Frame, favorite: string): (r: Outcome<Query>)
    requires WellFormed(df)
    ensures "English name" !in df.columns ==> r == Fail(KeyError("English name"))
    ensures "English name" in df.columns ==>
              var e := Col(df.columns, "English name");
              ((forall i | 0 <= i < |df.rows| :: df.rows[i][e] != Text(favorite)) ==> r == Fail(IndexError))
    ensures "English name" in df.columns ==>
              var e := Col(df.columns, "English name");
              (exists i | 0 <= i < |df.rows| :: df.rows[i][e] == Text(favorite)) ==>
                && ("anime_id" !in df.columns ==> r == Fail(KeyError("anime_id")))
                && ("anime_id" in df.columns && "Genres" !in df.columns ==> r == Fail(KeyError("Genres")))
    ensures r.Ok? ==> "English name" in df.columns && "anime_id" in df.columns && "Genres" in df.columns
    ensures r.Ok? ==>
              var e := Col(df.columns, "English name");
              var q := r.value;
              && q.row < |df.rows|
              && df.rows[q.row][e] == Text(favorite)
              && (forall i | 0 <= i < q.row :: df.rows[i][e] != Text(favorite))
              && q.id == df.rows[q.row][Col(df.columns, "anime_id")]
              && var g := df.rows[q.row][Col(df.columns, "Genres")];
                 && g.Text?
                 && q.genres == Split(g.s, ", ")
                 && g == Text(Join(q.genres, ", "))
    ensures "English name" in df.columns && "anime_id" in df.columns && "Genres" in df.columns ==>
              var e := Col(df.columns, "English name");
              forall i | FirstMatch(df.rows, e, Text(favorite)) == Some(i) ::
                && (r.Fail? <==> !df.rows[i][Col(df.columns, "Genres")].Text?)
                && (r.Fail? ==> r == Fail(AttributeError))
  {
    if "English name" !in df.columns then Fail(KeyError("English name"))
    else
      var e := Col(df.columns, "English name");
      match FirstMatch(df.rows, e, Text(favorite))
      case None => Fail(IndexError)
      case Some(i) =>
        if "anime_id" !in df.columns then Fail(KeyError("anime_id"))
        else if "Genres" !in df.columns then Fail(KeyError("Genres"))
        else
          var g := df.rows[i][Col(df.columns, "Genres")];
          if !g.Text? then Fail(AttributeError)
          else
            JoinSplit(g.s, ", ");
            Ok(Query(i, df.rows[i][Col(df.columns, "anime_id")], Split(g.s, ", ")))
  }
}
