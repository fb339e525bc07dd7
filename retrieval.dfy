/**
 * The last part of the recommendation page (pages/rec.py:77-113): every
 * title becomes a feature vector, a nearest-neighbour search (Spark's
 * BucketedRandomProjectionLSH, a parameter here) returns the ids closest
 * to the picked title, the picked title is dropped from them and at most
 * three are kept, their rows are taken back from the table and shown.
 */
module Retrieval {
  import opened Strings
  import opened Table

  /** Labels that are not features (rec.py:79). */
  const NotFeatures: seq<string> :=
    ["anime_id", "Name", "English name", "Other name", "Synopsis", "Genres",
     "Producers", "Licensors", "Studios", "Source", "Type"]

  /** `numNearestNeighbors` passed to the search (rec.py:102). */
  const Neighbours: nat := 4

  /** How many neighbours are kept (rec.py:105). */
  const Kept: nat := 3

  /** One row of the Spark frame: the title's id and its feature vector. */
  datatype Point = Point(id: Cell, features: seq<real>)

  /** Positions of the feature columns, in column order. */
  function FeaturePositions(labels: seq<string>): (ps: seq<nat>)
    ensures forall k | 0 <= k < |ps| :: ps[k] < |labels| && labels[ps[k]] !in NotFeatures
    ensures forall p | 0 <= p < |labels| && labels[p] !in NotFeatures :: p in ps
    ensures forall k, m | 0 <= k < m < |ps| :: ps[k] < ps[m]
  {
    Keep(labels, NotFeatures)
  }

  /** Every feature cell of the row is a number. */
  predicate NumericRow(row: seq<Cell>, ps: seq<nat>)
  {
    forall k | 0 <= k < |ps| :: ps[k] < |row| && row[ps[k]].Num?
  }

  /** Every feature cell is a number. */
  predicate NumericFeatures(df: Frame)
  {
    forall row | row in df.rows :: NumericRow(row, FeaturePositions(df.columns))
  }

  /** The numbers of the row's cells at `ps`, in that order. */
  function Vector(row: seq<Cell>, ps: seq<nat>): (v: seq<real>)
    requires NumericRow(row, ps)
    ensures |v| == |ps| && forall k | 0 <= k < |ps| :: row[ps[k]] == Num(v[k])
  {
    seq(|ps|, k requires 0 <= k < |ps| => row[ps[k]].x)
  }

  /** rec.py:79-90: a ValueError if a feature cell is not a number
      (`np.array(x, dtype=float)`), then a KeyError without an anime_id
      column; otherwise one point per row, in row order, holding the row's
      id and the numbers of its feature columns in column order. */
  function Points(df: Frame): (r: Outcome<seq<Point>>)
    requires WellFormed(df)
    ensures r.Ok? <==> NumericFeatures(df) && "anime_id" in df.columns
    ensures !NumericFeatures(df) ==> r == Fail(ValueError)
    ensures NumericFeatures(df) && "anime_id" !in df.columns ==> r == Fail(KeyError("anime_id"))
    ensures r.Ok? ==>
              var ps := FeaturePositions(df.columns);
              && |r.value| == |df.rows|
              && forall i | 0 <= i < |df.rows| ::
                   && r.value[i].id == df.rows[i][Col(df.columns, "anime_id")]
                   && |r.value[i].features| == |ps|
                   && forall k | 0 <= k < |ps| :: df.rows[i][ps[k]] == Num(r.value[i].features[k])
  {
    var ps := FeaturePositions(df.columns);
    if !NumericFeatures(df) then Fail(ValueError)
    else if "anime_id" !in df.columns then Fail(KeyError("anime_id"))
    else
      assert forall i | 0 <= i < |df.rows| :: df.rows[i] in df.rows;
      Ok(PointsAt(df, Col(df.columns, "anime_id"), ps))
  }

  /** One point per row: its cell in column `j` and its numbers at `ps`. */
  function PointsAt(df: Frame, j: nat, ps: seq<nat>): (pts: seq<Point>)
    requires WellFormed(df) && j < |df.columns|
    requires forall i | 0 <= i < |df.rows| :: NumericRow(df.rows[i], ps)
    ensures |pts| == |df.rows|
    ensures forall i | 0 <= i < |df.rows| ::
              && NumericRow(df.rows[i], ps)
              && pts[i].id == df.rows[i][j]
              && |pts[i].features| == |ps|
              && forall k | 0 <= k < |ps| :: df.rows[i][ps[k]] == Num(pts[i].features[k])
  {
    seq(|df.rows|, i requires 0 <= i < |df.rows| => Point(df.rows[i][j], Vector(df.rows[i], ps)))
  }

  /** rec.py:99-102 `filter(anime_id == id).first()['features']`: the vector
      of the first point with that id, or a TypeError when there is none
      (`first()` gives None). */
  function QueryVector(points: seq<Point>, id: Cell): (r: Outcome<seq<real>>)
    ensures r.Fail? <==> forall i | 0 <= i < |points| :: points[i].id != id
    ensures r.Fail? ==> r.error == TypeError
    ensures r.Ok? ==> exists i | 0 <= i < |points| :: points[i].id == id && points[i].features == r.value
  {
    if points == [] then Fail(TypeError)
    else if points[0].id == id then Ok(points[0].features)
    else
      var r := QueryVector(points[1..], id);
      assert r.Ok? ==> exists i | 0 <= i < |points[1..]| :: points[1..][i].id == id && points[1..][i].features == r.value;
      r
  }

  /** rec.py:105: the neighbours' ids without the picked title's, at most
      the first three of them. */
  function Similar(neighbours: seq<Cell>, id: Cell): (ids: seq<Cell>)
    ensures var others := Filter(neighbours, x => x != id);
            && |ids| == (if |others| < Kept then |others| else Kept)
            && ids == others[..|ids|]
    ensures id !in ids
    ensures |ids| <= Kept
    ensures IsSubsequence(ids, neighbours)
    ensures |ids| < Kept ==> forall x | x in neighbours && x != id :: x in ids
  {
    var others := Filter(neighbours, x => x != id);
    if |others| <= Kept then others
    else
      SubsequencePrefix(others, neighbours, Kept);
      assert forall x | x in others[..Kept] :: x in others;
      others[..Kept]
  }

  /** The mask `df['anime_id'].isin(ids)` at row level. */
  function IdIn(j: nat, ids: seq<Cell>): seq<Cell> -> bool
  {
    row => j < |row| && row[j] in ids
  }

  /** rec.py:108 `df[df['anime_id'].isin(ids)]`: a KeyError without the
      column; otherwise exactly the rows whose id is listed, in the order of
      the table (not in the order of `ids`). */
  function Recommended(df: Frame, ids: seq<Cell>): (r: Outcome<Frame>)
    requires WellFormed(df)
    ensures r.Fail? <==> "anime_id" !in df.columns
    ensures r.Fail? ==> r.error == KeyError("anime_id")
    ensures r.Ok? ==> WellFormed(r.value) && r.value.columns == df.columns
    ensures r.Ok? ==>
              forall row :: row in r.value.rows <==> row in df.rows && row[Col(df.columns, "anime_id")] in ids
    ensures r.Ok? ==> IsSubsequence(r.value.rows, df.rows)
  {
    if "anime_id" !in df.columns then Fail(KeyError("anime_id"))
    else
      var j := Col(df.columns, "anime_id");
      Ok(Frame(df.columns, Filter(df.rows, IdIn(j, ids))))
  }

  /** Every row whose id is listed is taken back as often as the table holds
      it. */
  lemma RecommendedCounts(df: Frame, ids: seq<Cell>)
    requires WellFormed(df) && "anime_id" in df.columns
    ensures var j := Col(df.columns, "anime_id");
            forall row :: multiset(Recommended(df, ids).value.rows)[row] ==
                            if j < |row| && row[j] in ids then multiset(df.rows)[row] else 0
  {
    FilterCounts(df.rows, IdIn(Col(df.columns, "anime_id"), ids));
  }

  /** The join keeps table order: with the table holding ids 1 then 2 and
      the neighbours coming as 2 then 1, the rows come back as 1 then 2. */
  lemma RecommendedInTableOrder()
    ensures var df := Frame(["anime_id"], [[Num(1.0)], [Num(2.0)]]);
            Recommended(df, [Num(2.0), Num(1.0)]) == Ok(df)
  {
    var df := Frame(["anime_id"], [[Num(1.0)], [Num(2.0)]]);
    var keep := IdIn(0, [Num(2.0), Num(1.0)]);
    assert df.rows[1..][1..] == [];
    assert Filter(df.rows[1..], keep) == [[Num(2.0)]];
    assert Filter(df.rows, keep) == df.rows;
  }

  /** No two rows share the value in column `j`. */
  predicate KeyColumn(rows: seq<seq<Cell>>, j: nat)
    requires forall row | row in rows :: j < |row|
  {
    forall a, b | 0 <= a < b < |rows| :: rows[a][j] != rows[b][j]
  }

  lemma {:induction false} SubsequenceKey(a: seq<seq<Cell>>, b: seq<seq<Cell>>, j: nat)
    requires forall row | row in b :: j < |row|
    requires IsSubsequence(a, b) && KeyColumn(b, j)
    ensures forall row | row in a :: j < |row|
    ensures KeyColumn(a, j)
    decreases |b|
  {
    SubsequenceMembers(a, b);
    if a != [] {
      assert forall m | 0 < m < |b| :: b[m] == b[1..][m - 1];
      if a[0] == b[0] && IsSubsequence(a[1..], b[1..]) {
        SubsequenceKey(a[1..], b[1..], j);
        SubsequenceMembers(a[1..], b[1..]);
        forall x, y | 0 <= x < y < |a| ensures a[x][j] != a[y][j] {
          if x == 0 {
            assert a[y] == a[1..][y - 1];
            assert a[y] in b[1..];
          } else {
            assert a[x] == a[1..][x - 1] && a[y] == a[1..][y - 1];
          }
        }
      } else {
        SubsequenceKey(a, b[1..], j);
      }
    }
  }

  /** Rows with distinct keys, all drawn from `keys`, are at most as many as
      the keys. */
  lemma {:induction false} KeyBounded(rows: seq<seq<Cell>>, j: nat, keys: set<Cell>)
    requires forall row | row in rows :: j < |row|
    requires KeyColumn(rows, j) && forall row | row in rows :: row[j] in keys
    ensures |rows| <= |keys|
    decreases |rows|
  {
    if rows != [] {
      var rest := rows[1..];
      forall row | row in rest ensures row[j] in keys - {rows[0][j]} {
        var m :| 0 <= m < |rest| && rest[m] == row;
        assert rows[m + 1] == row;
      }
      KeyBounded(rest, j, keys - {rows[0][j]});
    }
  }

  lemma {:induction false} DistinctCount(ids: seq<Cell>)
    ensures |set x | x in ids| <= |ids|
  {
    if ids != [] {
      DistinctCount(ids[1..]);
      assert (set x | x in ids) == (set x | x in ids[1..]) + {ids[0]} by {
        assert ids == [ids[0]] + ids[1..];
      }
    }
  }

  /** When anime_id is a key of the table, the join returns at most one row
      per listed id, so the page shows at most three titles. */
  lemma RecommendedAtMost(df: Frame, ids: seq<Cell>)
    requires WellFormed(df) && "anime_id" in df.columns
    requires KeyColumn(df.rows, Col(df.columns, "anime_id"))
    ensures |Recommended(df, ids).value.rows| <= |ids|
  {
    var j := Col(df.columns, "anime_id");
    var rows := Recommended(df, ids).value.rows;
    SubsequenceKey(rows, df.rows, j);
    KeyBounded(rows, j, set x | x in ids);
    DistinctCount(ids);
  }

  /** One line on the page: the English title, the genres text, the score. */
  datatype Line = Line(title: Cell, genres: string, score: Cell)

  /** `', '.join(cell)`: a list joins its strings, a string joins its
      characters, anything else is a TypeError. */
  function GenreText(c: Cell): (r: Outcome<string>)
    ensures r.Fail? <==> !(c.Tags? || c.Text?)
    ensures r.Fail? ==> r.error == TypeError
    ensures c.Tags? ==> r == Ok(Join(c.atoms, ", "))
    ensures c.Text? ==> r.Ok? && SpelledOut(c.s, r.value)
  {
    match c
    case Tags(atoms) => Ok(Join(atoms, ", "))
    case Text(s) =>
      JoinChars(s);
      Ok(Join(seq(|s|, i requires 0 <= i < |s| => [s[i]]), ", "))
    case _ => Fail(TypeError)
  }

  /** `t` is `s` with ", " between each two of its characters. */
  predicate SpelledOut(s: string, t: string)
  {
    && |t| == (if |s| == 0 then 0 else 3 * |s| - 2)
    && (forall i | 0 <= i < |s| :: t[3 * i] == s[i])
    && (forall i | 0 <= i < |s| - 1 :: t[3 * i + 1] == ',' && t[3 * i + 2] == ' ')
  }

  /** Joining the characters of a string one by one spells it out. */
  lemma {:induction false} JoinChars(s: string)
    ensures SpelledOut(s, Join(seq(|s|, i requires 0 <= i < |s| => [s[i]]), ", "))
    decreases |s|
  {
    var cs := seq(|s|, i requires 0 <= i < |s| => [s[i]]);
    if |s| > 1 {
      var tail := seq(|s| - 1, i requires 0 <= i < |s| - 1 => [s[1..][i]]);
      assert cs[1..] == tail;
      JoinChars(s[1..]);
      var u := Join(tail, ", ");
      var t := Join(cs, ", ");
      assert t == [s[0]] + ", " + u;
      forall i | 1 <= i < |s| ensures t[3 * i] == s[i] {
        assert t[3 * i] == u[3 * (i - 1)];
      }
      forall i | 1 <= i < |s| - 1 ensures t[3 * i + 1] == ',' && t[3 * i + 2] == ' ' {
        assert t[3 * i + 1] == u[3 * (i - 1) + 1];
        assert t[3 * i + 2] == u[3 * (i - 1) + 2];
      }
    }
  }

  /** The f-string at rec.py:113 for one row, evaluated left to right. */
  function ShowRow(labels: seq<string>, row: seq<Cell>): (r: Outcome<Line>)
    requires |row| == |labels|
    ensures "English name" !in labels ==> r == Fail(KeyError("English name"))
    ensures "English name" in labels && "Genres" !in labels ==> r == Fail(KeyError("Genres"))
    ensures "English name" in labels && "Genres" in labels && GenreText(row[Col(labels, "Genres")]).Fail? ==>
              r == Fail(TypeError)
    ensures "English name" in labels && "Genres" in labels && GenreText(row[Col(labels, "Genres")]).Ok? ==>
              && ("Score" !in labels ==> r == Fail(KeyError("Score")))
              && ("Score" in labels ==> r.Ok?)
    ensures r.Ok? ==>
              && "English name" in labels && "Genres" in labels && "Score" in labels
              && r.value.title == row[Col(labels, "English name")]
              && r.value.score == row[Col(labels, "Score")]
              && Ok(r.value.genres) == GenreText(row[Col(labels, "Genres")])
  {
    if "English name" !in labels then Fail(KeyError("English name"))
    else if "Genres" !in labels then Fail(KeyError("Genres"))
    else
      var genres :- GenreText(row[Col(labels, "Genres")]);
      if "Score" !in labels then Fail(KeyError("Score"))
      else Ok(Line(row[Col(labels, "English name")], genres, row[Col(labels, "Score")]))
  }

  /** The loop at rec.py:112-113 run over `rows`: stops at the first error. */
  function ShowAll(labels: seq<string>, rows: seq<seq<Cell>>): (r: Outcome<seq<Line>>)
    requires forall row | row in rows :: |row| == |labels|
    ensures r.Ok? <==> forall i | 0 <= i < |rows| :: ShowRow(labels, rows[i]).Ok?
    ensures r.Ok? ==> |r.value| == |rows| && forall i | 0 <= i < |rows| :: ShowRow(labels, rows[i]) == Ok(r.value[i])
    ensures r.Fail? ==> exists i | 0 <= i < |rows| ::
                          && ShowRow(labels, rows[i]) == Fail(r.error)
                          && forall k | 0 <= k < i :: ShowRow(labels, rows[k]).Ok?
    decreases |rows|
  {
    if rows == [] then Ok([])
    else
      var line :- ShowRow(labels, rows[0]);
      var rest := rows[1..];
      assert forall i | 1 <= i < |rows| :: rows[i] == rest[i - 1];
      var lines :- ShowAll(labels, rest);
      Ok([line] + lines)
  }

  /** The display ends with the error of the first row that cannot be shown. */
  lemma ShowAllFirstFail(labels: seq<string>, rows: seq<seq<Cell>>, n: nat)
    requires forall row | row in rows :: |row| == |labels|
    requires n < |rows| && ShowRow(labels, rows[n]).Fail?
    requires forall k | 0 <= k < n :: ShowRow(labels, rows[k]).Ok?
    ensures ShowAll(labels, rows) == Fail(ShowRow(labels, rows[n]).error)
  {
    var r := ShowAll(labels, rows);
    var i :| 0 <= i < |rows| && ShowRow(labels, rows[i]) == Fail(r.error)
             && forall k | 0 <= k < i :: ShowRow(labels, rows[k]).Ok?;
    assert i == n;
  }

  /** When every row is shown, the display is exactly those lines. */
  lemma ShowAllEvery(labels: seq<string>, rows: seq<seq<Cell>>, lines: seq<Line>)
    requires forall row | row in rows :: |row| == |labels|
    requires |lines| == |rows| && forall i | 0 <= i < |rows| :: ShowRow(labels, rows[i]) == Ok(lines[i])
    ensures ShowAll(labels, rows) == Ok(lines)
  {
    var r := ShowAll(labels, rows);
    assert r.Ok?;
    assert r.value == lines;
  }

  /** The rows before `n` are shown as `lines`. */
  predicate ShownUpTo(labels: seq<string>, rows: seq<seq<Cell>>, lines: seq<Line>, n: nat)
    requires forall row | row in rows :: |row| == |labels|
  {
    n <= |rows| && |lines| == n && forall i | 0 <= i < n :: ShowRow(labels, rows[i]) == Ok(lines[i])
  }

  /** Showing row `n` extends the shown prefix by its line. */
  lemma ShownExtend(labels: seq<string>, rows: seq<seq<Cell>>, lines: seq<Line>, n: nat)
    requires forall row | row in rows :: |row| == |labels|
    requires n < |rows| && ShownUpTo(labels, rows, lines, n) && ShowRow(labels, rows[n]).Ok?
    ensures ShownUpTo(labels, rows, lines + [ShowRow(labels, rows[n]).value], n + 1)
  {
    var more := lines + [ShowRow(labels, rows[n]).value];
    forall i | 0 <= i < n + 1 ensures ShowRow(labels, rows[i]) == Ok(more[i]) {
      if i < n {
        assert more[i] == lines[i];
      }
    }
  }

  /** rec.py:112-113, the loop itself. */
  method Display(df: Frame) returns (r: Outcome<seq<Line>>)
    requires WellFormed(df)
    ensures r == ShowAll(df.columns, df.rows)
  {
    var lines: seq<Line> := [];
    for n := 0 to |df.rows|
      invariant ShownUpTo(df.columns, df.rows, lines, n)
    {
      var line := ShowRow(df.columns, df.rows[n]);
      if line.Fail? {
        ShowAllFirstFail(df.columns, df.rows, n);
        return Fail(line.error);
      }
      ShownExtend(df.columns, df.rows, lines, n);
      lines := lines + [line.value];
    }
    ShowAllEvery(df.columns, df.rows, lines);
    return Ok(lines);
  }

  /** Splitting the Genres text on "," keeps the blank after each comma, so
      joining with ", " shows two blanks: "Action, Drama" is shown as
      "Action,  Drama". */
  lemma DisplayedGenresDoubleBlank(a: string, b: string)
    requires ',' !in a && ',' !in b
    ensures GenreText(Tags(Split(a + ", " + b, ","))) == Ok(a + ",  " + b)
  {
    assert a + ", " + b == a + "," + (" " + b);
    SplitFirst(a, ",", " " + b);
    SplitWhole(" " + b, ",");
    var parts := [a, " " + b];
    assert parts[1..] == [" " + b];
    assert a + ", " + (" " + b) == a + ",  " + b;
  }
}
