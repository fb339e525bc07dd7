/**
 * The recommendation page as a whole (pages/rec.py:14-113): the script
 * rebinds one table step by step, from the loaded file to the lines shown
 * under the picked title. The file, the scaler and the nearest-neighbour
 * search are parameters.
 */
module Page {
  import opened Strings
  import opened Table
  import opened Cleaning
  import opened Encoding
  import opened Scaling
  import opened Retrieval

  /** What the page needs of the file (anime-dataset-2023.csv): a table in
      which Genres, when there, holds text or NaN, and the five categorical
      columns are there and hold text or NaN, as `read_csv` leaves them. */
  predicate HasTextColumns(df: Frame)
  {
    WellFormed(df) && TextColumn(df, "Genres") && CategoricalText(df)
  }

  /** A text column the cleaning does not drop is still a text column of the
      pool. */
  lemma CleanKeepsText(loaded: Frame, c: string)
    requires WellFormed(loaded) && HasText(loaded, c) && c !in Unused
    requires Clean(loaded).Ok?
    ensures HasText(Clean(loaded).value, c)
  {
    var kept := Drop(loaded, Unused).value;
    DropKeepsColumn(loaded, Unused, c);
    assert TextColumn(kept, c) by {
      forall row: seq<Cell> | row in kept.rows
        ensures row[Col(kept.columns, c)].Text? || row[Col(kept.columns, c)].Missing?
      {
        var i :| 0 <= i < |kept.rows| && kept.rows[i] == row;
        assert loaded.rows[i] in loaded.rows;
      }
    }
    var pool := Clean(loaded).value;
    assert pool == KeepAcclaimed(DropUnknown(kept)).value;
    assert forall row | row in pool.rows :: row in kept.rows;
  }

  /** The cleaning adds no column. */
  lemma CleanAddsNone(loaded: Frame, c: string)
    requires WellFormed(loaded) && c !in loaded.columns && Clean(loaded).Ok?
    ensures c !in Clean(loaded).value.columns
  {
    var kept := Drop(loaded, Unused).value;
    assert c !in kept.columns;
    assert Clean(loaded).value.columns == kept.columns;
  }

  /** None of the text columns is among the dropped ones (stated once, so
      that the label comparisons are not redone at every use). */
  lemma TextLabelsKept()
    ensures "Genres" !in Unused && "Type" !in Unused && "Producers" !in Unused
    ensures "Licensors" !in Unused && "Studios" !in Unused && "Source" !in Unused
  {
  }

  /** The cleaned pool of a loaded table keeps the text columns. */
  lemma PoolReady(loaded: Frame)
    requires HasTextColumns(loaded) && Clean(loaded).Ok?
    ensures HasTextColumns(Clean(loaded).value)
  {
    var clean := Clean(loaded).value;
    TextLabelsKept();
    assert TextColumn(clean, "Genres") by {
      if "Genres" in loaded.columns {
        CleanKeepsText(loaded, "Genres");
      } else {
        CleanAddsNone(loaded, "Genres");
      }
    }
    assert HasText(clean, "Type") by { CleanKeepsText(loaded, "Type"); }
    assert HasText(clean, "Producers") by { CleanKeepsText(loaded, "Producers"); }
    assert HasText(clean, "Licensors") by { CleanKeepsText(loaded, "Licensors"); }
    assert HasText(clean, "Studios") by { CleanKeepsText(loaded, "Studios"); }
    assert HasText(clean, "Source") by { CleanKeepsText(loaded, "Source"); }
  }

  /** The genre encoding leaves the five categorical columns as they were,
      ready for the loop. */
  lemma GenresKeepText(df: Frame)
    requires HasTextColumns(df)
    ensures CategoricalText(EncodeGenres(df))
    ensures Encodable(EncodeGenres(df), Categorical)
  {
    var g := EncodeGenres(df);
    assert g.columns == df.columns + g.columns[|df.columns|..];
    CategoricalEncodable(g);
  }

  /** rec.py:47-60: the genre encoding, then the loop over the categorical
      columns (EncodedCells states what becomes of the cells). */
  function Encoded(clean: Frame): (r: Frame)
    requires HasTextColumns(clean)
    ensures WellFormed(r) && |r.rows| == |clean.rows|
    ensures |clean.columns| <= |r.columns| && r.columns[..|clean.columns|] == clean.columns
    ensures var g := EncodeGenres(clean);
            |g.columns| <= |r.columns| && r.columns[..|g.columns|] == g.columns && KeepsCells(g, r)
  {
    var g := EncodeGenres(clean);
    GenresKeepText(clean);
    var r := EncodeAll(g);
    PrefixChain(clean.columns, g.columns, r.columns);
    r
  }

  /** Every cell of the cleaned table other than one under Genres, NaN
      aside, is in `r` at the same row and column. */
  predicate KeepsOtherCells(clean: Frame, r: Frame)
    requires WellFormed(clean) && WellFormed(r) && |r.rows| == |clean.rows| && |clean.columns| <= |r.columns|
  {
    forall i, p | 0 <= i < |clean.rows| && 0 <= p < |clean.columns| && clean.rows[i][p] != Missing
                  && ("Genres" in clean.columns ==> p != Col(clean.columns, "Genres")) ::
      assert r.rows[i] in r.rows;
      r.rows[i][p] == clean.rows[i][p]
  }

  /** The Genres cell of every row of `r` is the list of that row's genre
      atoms in the cleaned table. */
  predicate GenresListed(clean: Frame, r: Frame)
    requires WellFormed(clean) && TextColumn(clean, "Genres") && "Genres" in clean.columns
    requires WellFormed(r) && |r.rows| == |clean.rows| && |clean.columns| <= |r.columns|
  {
    var j := Col(clean.columns, "Genres");
    var lists := Pieces(clean, j, ",");
    forall i | 0 <= i < |clean.rows| :: assert r.rows[i] in r.rows; r.rows[i][j] == Tags(lists[i])
  }

  /** The encoded table keeps every cell of the cleaned table, NaN aside,
      except that Genres, when there, now holds each title's list of genre
      atoms (its text split on ","). */
  lemma EncodedCells(clean: Frame)
    requires HasTextColumns(clean)
    ensures KeepsOtherCells(clean, Encoded(clean))
    ensures "Genres" in clean.columns ==> GenresListed(clean, Encoded(clean))
  {
    var g := EncodeGenres(clean);
    var r := Encoded(clean);
    if "Genres" in clean.columns {
      var j := Col(clean.columns, "Genres");
      GenresEncoded(clean);
      CellsThroughGenres(clean, g, r, j, Pieces(clean, j, ","));
    } else {
      assert g == clean;
    }
  }

  /** Cells of the cleaned table, column `j` overwritten with the lists'
      tags, then kept by a later step. */
  lemma CellsThroughGenres(clean: Frame, g: Frame, r: Frame, j: nat, lists: seq<seq<string>>)
    requires WellFormed(clean) && WellFormed(g) && WellFormed(r)
    requires |g.rows| == |clean.rows| && |r.rows| == |g.rows| && |lists| == |clean.rows|
    requires |clean.columns| <= |g.columns| <= |r.columns| && j < |clean.columns|
    requires forall i | 0 <= i < |clean.rows| :: g.rows[i][..|clean.columns|] == clean.rows[i][j := Tags(lists[i])]
    requires KeepsCells(g, r)
    ensures forall i, p | 0 <= i < |clean.rows| && 0 <= p < |clean.columns| && p != j && clean.rows[i][p] != Missing ::
              r.rows[i][p] == clean.rows[i][p]
    ensures forall i | 0 <= i < |clean.rows| :: r.rows[i][j] == Tags(lists[i])
  {
    var n := |clean.columns|;
    forall i | 0 <= i < |clean.rows|
      ensures forall p | 0 <= p < n && clean.rows[i][j := Tags(lists[i])][p] != Missing ::
                r.rows[i][p] == clean.rows[i][j := Tags(lists[i])][p]
    {
      GenresRowKept(g, r, n, i, clean.rows[i][j := Tags(lists[i])]);
    }
  }

  /** A row's first `n` cells after the genre encoding survive, NaN aside, a
      step that keeps non-NaN cells. */
  lemma GenresRowKept(g: Frame, r: Frame, n: nat, i: nat, row: seq<Cell>)
    requires WellFormed(g) && WellFormed(r) && |r.rows| == |g.rows| && |g.columns| <= |r.columns|
    requires n <= |g.columns| && i < |g.rows| && KeepsCells(g, r)
    requires g.rows[i][..n] == row
    ensures forall p | 0 <= p < n && row[p] != Missing :: r.rows[i][p] == row[p]
  {
    assert g.rows[i] in g.rows;
    forall p | 0 <= p < n && row[p] != Missing ensures r.rows[i][p] == row[p] {
      assert g.rows[i][p] == row[p];
    }
  }

  /** The table the neighbours are looked up in, and the picked title. */
  datatype Prepared = Prepared(query: Query, pool: Frame)

  /** rec.py:18-75 on values: clean, look up the pick, encode, standardise
      and weight. A failed cleaning is the outcome; otherwise the rest runs
      on the cleaned table (PrepareCleaned). */
  function Prepare(loaded: Frame, favorite: string, scale: seq<real> -> seq<real>): (r: Outcome<Prepared>)
    requires HasTextColumns(loaded) && Shaped(scale)
    ensures Clean(loaded).Ok? ==> HasTextColumns(Clean(loaded).value)
    ensures Clean(loaded).Fail? ==> r == Fail(Clean(loaded).error)
    ensures Clean(loaded).Ok? ==> r == PrepareCleaned(Clean(loaded).value, favorite, scale)
    ensures r.Ok? ==> Clean(loaded).Ok? && SelectQuery(Clean(loaded).value, favorite) == Ok(r.value.query)
    ensures r.Ok? ==>
              var clean := Clean(loaded).value;
              && WellFormed(r.value.pool)
              && |r.value.pool.rows| == |clean.rows|
              && |clean.columns| <= |r.value.pool.columns|
              && r.value.pool.columns[..|clean.columns|] == clean.columns
  {
    if Clean(loaded).Ok? then PoolReady(loaded); PrepareCleaned(Clean(loaded).value, favorite, scale)
    else Fail(Clean(loaded).error)
  }

  /** rec.py:38-75: Prepare after the cleaning. */
  function PrepareCleaned(clean: Frame, favorite: string, scale: seq<real> -> seq<real>): (r: Outcome<Prepared>)
    requires HasTextColumns(clean) && Shaped(scale)
    ensures r.Ok? ==> SelectQuery(clean, favorite) == Ok(r.value.query)
    ensures r.Ok? ==>
              && WellFormed(r.value.pool)
              && |r.value.pool.rows| == |clean.rows|
              && |clean.columns| <= |r.value.pool.columns|
              && r.value.pool.columns[..|clean.columns|] == clean.columns
  {
    var q :- SelectQuery(clean, favorite);
    var s :- StandardizeAll(Encoded(clean), Numeric, scale);
    var w :- WeightAll(s, q.genres, GenreWeight);
    Ok(Prepared(q, w))
  }

  /** After the cleaning, the preparation fails with the first failing
      step's error: the look-up's; the standardising's (a ValueError or the
      KeyError of a numeric label) exactly when a numeric label is not a
      column of numbers in the encoded table; and a TypeError exactly when a
      column named after a picked genre holds text after standardising. */
  lemma PrepareCleanedOutcome(clean: Frame, favorite: string, scale: seq<real> -> seq<real>)
    requires HasTextColumns(clean) && Shaped(scale)
    ensures SelectQuery(clean, favorite).Fail? ==>
              PrepareCleaned(clean, favorite, scale) == Fail(SelectQuery(clean, favorite).error)
    ensures SelectQuery(clean, favorite).Ok? ==>
              var e := Encoded(clean);
              var r := PrepareCleaned(clean, favorite, scale);
              && (r.Ok? ==> NumericLabels(e, Numeric))
              && (!NumericLabels(e, Numeric) ==>
                    && StandardizeAll(e, Numeric, scale).Fail?
                    && r == Fail(StandardizeAll(e, Numeric, scale).error)
                    && (r.error == ValueError || (r.error.KeyError? && r.error.key in Numeric)))
    ensures SelectQuery(clean, favorite).Ok? && NumericLabels(Encoded(clean), Numeric) ==>
              var r := PrepareCleaned(clean, favorite, scale);
              && StandardizeAll(Encoded(clean), Numeric, scale).Ok?
              && var s := StandardizeAll(Encoded(clean), Numeric, scale).value;
                 && (r.Ok? <==> WeightReady(s, SelectQuery(clean, favorite).value.genres))
                 && (r.Fail? ==> r.error == TypeError)
  {
    if SelectQuery(clean, favorite).Ok? {
      var q := SelectQuery(clean, favorite).value;
      var e := Encoded(clean);
      NumericDistinct();
      StandardizeAllSucceeds(e, Numeric, scale);
      if StandardizeAll(e, Numeric, scale).Ok? {
        WeightSucceeds(StandardizeAll(e, Numeric, scale).value, q.genres, GenreWeight);
      }
    }
  }

  /** Each genre column of `g` from `n` on (one whose label is not one of
      the numeric labels) holds in `pool`, for a title that has that genre,
      the weight factor raised to the number of times the genre is among
      `genres`, and 0 for a title without it. */
  predicate GenresWeighted(g: Frame, n: nat, lists: seq<seq<string>>, pool: Frame, genres: seq<string>)
    requires WellFormed(g) && WellFormed(pool) && n <= |g.columns| <= |pool.columns|
    requires |lists| == |g.rows| && |pool.rows| == |g.rows|
  {
    forall i, k | 0 <= i < |g.rows| && n <= k < |g.columns| && g.columns[k] !in Numeric ::
      assert pool.rows[i] in pool.rows;
      pool.rows[i][k] == if g.columns[k] in lists[i] then Num(Pow(GenreWeight, multiset(genres)[g.columns[k]])) else Num(0.0)
  }

  /** On success, the genre columns the genre encoding appended carry the
      pick's weighting (GenresWeighted) in the prepared pool. */
  lemma GenreColumnsWeighted(clean: Frame, favorite: string, scale: seq<real> -> seq<real>)
    requires HasTextColumns(clean) && Shaped(scale) && PrepareCleaned(clean, favorite, scale).Ok?
    ensures "Genres" in clean.columns
    ensures var g := EncodeGenres(clean);
            var p := PrepareCleaned(clean, favorite, scale).value;
            && |g.columns| <= |p.pool.columns| && p.pool.columns[..|g.columns|] == g.columns
            && GenresWeighted(g, |clean.columns|, Pieces(clean, Col(clean.columns, "Genres"), ","), p.pool, p.query.genres)
  {
    var q := SelectQuery(clean, favorite).value;
    var g := EncodeGenres(clean);
    var e := Encoded(clean);
    var s := StandardizeAll(e, Numeric, scale).value;
    assert PrepareCleaned(clean, favorite, scale).value == Prepared(q, WeightAll(s, q.genres, GenreWeight).value);
    GenresEncoded(clean);
    StandardizeAllUntouched(e, Numeric, scale);
    WeightedFrames(g, e, s, Pieces(clean, Col(clean.columns, "Genres"), ","), |clean.columns|, q.genres);
  }

  /** The genre columns of `g`, kept by the categorical loop (`e`), left
      alone by the standardising (`s`), then weighted. */
  lemma WeightedFrames(g: Frame, e: Frame, s: Frame, lists: seq<seq<string>>, n: nat, genres: seq<string>)
    requires WellFormed(g) && WellFormed(e) && WellFormed(s)
    requires |lists| == |g.rows| && n <= |g.columns| && IndicatorCells(g, n, lists, "")
    requires |e.rows| == |g.rows| && |g.columns| <= |e.columns| && e.columns[..|g.columns|] == g.columns && KeepsCells(g, e)
    requires s.columns == e.columns && |s.rows| == |e.rows| && UntouchedOutside(e, s, Numeric)
    requires WeightAll(s, genres, GenreWeight).Ok?
    ensures GenresWeighted(g, n, lists, WeightAll(s, genres, GenreWeight).value, genres)
  {
    var w := WeightAll(s, genres, GenreWeight).value;
    WeightEffect(s, genres, GenreWeight);
    forall i, k | 0 <= i < |g.rows| && n <= k < |g.columns| && g.columns[k] !in Numeric
      ensures w.rows[i][k] == if g.columns[k] in lists[i] then Num(Pow(GenreWeight, multiset(genres)[g.columns[k]])) else Num(0.0)
    {
      GenreCell(g, e, s, w, lists, n, i, k, Pow(GenreWeight, multiset(genres)[g.columns[k]]));
    }
  }

  /** One genre cell through the categorical loop, the standardising and the
      weighting. */
  lemma GenreCell(g: Frame, e: Frame, s: Frame, w: Frame, lists: seq<seq<string>>, n: nat, i: nat, k: nat, f: real)
    requires WellFormed(g) && WellFormed(e) && WellFormed(s) && WellFormed(w)
    requires |lists| == |g.rows| && n <= |g.columns| && i < |g.rows| && n <= k < |g.columns|
    requires |e.rows| == |g.rows| && |g.columns| <= |e.columns| && e.columns[..|g.columns|] == g.columns && KeepsCells(g, e)
    requires s.columns == e.columns && |s.rows| == |e.rows| && UntouchedOutside(e, s, Numeric)
    requires w.columns == s.columns && |w.rows| == |s.rows|
    requires IndicatorCells(g, n, lists, "") && g.columns[k] !in Numeric
    requires w.rows[i][k] == Scaled(s.rows[i][k], f)
    ensures w.rows[i][k] == if g.columns[k] in lists[i] then Num(f) else Num(0.0)
  {
    assert g.columns[k][|""|..] == g.columns[k];
    assert g.rows[i][k] == Indicator(g.columns[k] in lists[i]);
    assert e.rows[i][k] == g.rows[i][k];
    assert e.columns[k] == e.columns[..|g.columns|][k];
    assert s.rows[i][k] == e.rows[i][k];
  }

  /** What the page ends with: the pick, the ids kept, the rows taken back
      from the table, and the lines shown. */
  datatype Recommendation = Recommendation(query: Query, ids: seq<Cell>, rows: seq<seq<Cell>>, lines: seq<Line>)

  /** rec.py:77-113 for a prepared pool: the feature points, the pick's
      vector, the search, the rows taken back and the lines shown, each step
      failing with its own error and the first failure ending the page. */
  ghost predicate Answers(p: Prepared, nearest: (seq<Point>, seq<real>, nat) -> seq<Cell>, r: Outcome<Recommendation>)
    requires WellFormed(p.pool)
  {
    && (Points(p.pool).Fail? ==> r == Fail(Points(p.pool).error))
    && (Points(p.pool).Ok? ==>
          var points := Points(p.pool).value;
          && (QueryVector(points, p.query.id).Fail? ==> r == Fail(TypeError))
          && (QueryVector(points, p.query.id).Ok? ==>
                var ids := Similar(nearest(points, QueryVector(points, p.query.id).value, Neighbours), p.query.id);
                var picked := Recommended(p.pool, ids).value;
                && (ShowAll(p.pool.columns, picked.rows).Fail? ==> r == Fail(ShowAll(p.pool.columns, picked.rows).error))
                && (ShowAll(p.pool.columns, picked.rows).Ok? ==>
                      r == Ok(Recommendation(p.query, ids, picked.rows, ShowAll(p.pool.columns, picked.rows).value)))))
  }

  /** What a shown recommendation means for a prepared pool: the kept ids
      are the search's answer for the pick's vector without the pick, at
      most three; the rows are exactly the table rows with those ids, in
      table order; and one line is shown per row. */
  ghost predicate Delivers(p: Prepared, nearest: (seq<Point>, seq<real>, nat) -> seq<Cell>, rec: Recommendation)
    requires WellFormed(p.pool)
  {
    && Points(p.pool).Ok?
    && "anime_id" in p.pool.columns
    && var points := Points(p.pool).value;
       && rec.query == p.query
       && QueryVector(points, rec.query.id).Ok?
       && rec.ids == Similar(nearest(points, QueryVector(points, rec.query.id).value, Neighbours), rec.query.id)
       && rec.query.id !in rec.ids
       && |rec.ids| <= Kept
       && IsSubsequence(rec.rows, p.pool.rows)
       && (forall row :: row in rec.rows <==> row in p.pool.rows && row[Col(p.pool.columns, "anime_id")] in rec.ids)
       && ShowAll(p.pool.columns, rec.rows) == Ok(rec.lines)
  }

  /** A page that gets through every step delivers a recommendation. */
  lemma AnswersDeliver(p: Prepared, nearest: (seq<Point>, seq<real>, nat) -> seq<Cell>, r: Outcome<Recommendation>)
    requires WellFormed(p.pool) && Answers(p, nearest, r) && r.Ok?
    ensures Delivers(p, nearest, r.value)
  {
  }

  /** rec.py:14-113. `nearest(points, key, n)` is the fitted LSH model's
      `approxNearestNeighbors`, giving the ids of the rows it returns. The
      page fails exactly when one of its steps does, with that step's error
      (Prepare, then Answers), and what it shows on success is a
      recommendation (Delivers). */
  method Recommend(loaded: Frame, favorite: string, scale: seq<real> -> seq<real>,
                   nearest: (seq<Point>, seq<real>, nat) -> seq<Cell>)
    returns (r: Outcome<Recommendation>)
    requires HasTextColumns(loaded) && Shaped(scale)
    ensures Prepare(loaded, favorite, scale).Fail? ==> r == Fail(Prepare(loaded, favorite, scale).error)
    ensures Prepare(loaded, favorite, scale).Ok? ==> Answers(Prepare(loaded, favorite, scale).value, nearest, r)
    ensures r.Ok? ==> Prepare(loaded, favorite, scale).Ok? && Delivers(Prepare(loaded, favorite, scale).value, nearest, r.value)
  {
    var clean :- Clean(loaded);
    var q :- SelectQuery(clean, favorite);
    PoolReady(loaded);
    var t := EncodeGenres(clean);
    GenresKeepText(clean);
    t := EncodeCategoricals(t);
    assert t == EncodeAll(EncodeGenres(clean));
    t :- Standardize(t, scale);
    t :- Weight(t, q.genres);
    assert Prepare(loaded, favorite, scale) == Ok(Prepared(q, t));
    var points :- Points(t);
    var key :- QueryVector(points, q.id);
    var ids := Similar(nearest(points, key, Neighbours), q.id);
    var picked := Recommended(t, ids).value;
    var lines :- Display(picked);
    r := Ok(Recommendation(q, ids, picked.rows, lines));
    AnswersDeliver(Prepared(q, t), nearest, r);
  }
}
