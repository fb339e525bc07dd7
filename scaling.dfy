/**
 * Standardisation of the numeric columns (pages/rec.py:62-66) and the
 * weighting of the picked anime's genre columns (pages/rec.py:68-75).
 * scikit-learn's StandardScaler is a parameter: a function from one
 * column's values to their standardised values, one per sample.
 */
module Scaling {
  import opened Table

  /** The columns standardised, in loop order. */
  const Numeric: seq<string> := ["Score", "Episodes", "Rank", "Popularity", "Favorites", "Scored By", "Members"]

  /** The factor applied to a column named after one of the picked genres. */
  const GenreWeight: real := 7.0

  /** A fitted scaler returns one value per sample. */
  ghost predicate Shaped(scale: seq<real> -> seq<real>)
  {
    forall v :: |scale(v)| == |v|
  }

  /** The column at `j` holds numbers only. */
  predicate NumColumn(df: Frame, j: nat)
    requires WellFormed(df) && j < |df.columns|
  {
    forall i | 0 <= i < |df.rows| :: df.rows[i][j].Num?
  }

  /** The numbers of the column at `j`, top to bottom. */
  function Values(df: Frame, j: nat): (v: seq<real>)
    requires WellFormed(df) && j < |df.columns| && NumColumn(df, j)
    ensures |v| == |df.rows| && forall i | 0 <= i < |v| :: df.rows[i][j] == Num(v[i])
  {
    assert forall i | 0 <= i < |df.rows| :: df.rows[i] in df.rows;
    seq(|df.rows|, i requires 0 <= i < |df.rows| => df.rows[i][j].x)
  }

  /** `df[key] = scaler.fit_transform(df[[key]])`: a KeyError without the
      column, a ValueError when there are no rows or a cell is not a number,
      otherwise that column replaced by the scaler's output and nothing else
      changed. */
  function StandardizeColumn(df: Frame, key: string, scale: seq<real> -> seq<real>): (r: Outcome<Frame>)
    requires WellFormed(df) && Shaped(scale)
    ensures r.Ok? <==> key in df.columns && |df.rows| > 0 && NumColumn(df, Col(df.columns, key))
    ensures key !in df.columns ==> r == Fail(KeyError(key))
    ensures r.Fail? && key in df.columns ==> r.error == ValueError
    ensures r.Ok? ==> WellFormed(r.value) && r.value.columns == df.columns && |r.value.rows| == |df.rows|
    ensures r.Ok? ==>
              var j := Col(df.columns, key);
              var z := scale(Values(df, j));
              forall i | 0 <= i < |df.rows| :: r.value.rows[i] == df.rows[i][j := Num(z[i])]
  {
    if key !in df.columns then Fail(KeyError(key))
    else
      var j := Col(df.columns, key);
      if |df.rows| == 0 || !NumColumn(df, j) then Fail(ValueError)
      else
        var z := scale(Values(df, j));
        Ok(SetColumn(df, j, seq(|z|, i requires 0 <= i < |z| => Num(z[i]))))
  }

  /** The loop at rec.py:65-66 run over `keys`: stops at the first error. */
  function StandardizeAll(df: Frame, keys: seq<string>, scale: seq<real> -> seq<real>): (r: Outcome<Frame>)
    requires WellFormed(df) && Shaped(scale)
    ensures r.Ok? ==> WellFormed(r.value) && r.value.columns == df.columns && |r.value.rows| == |df.rows|
    ensures r.Fail? ==> r.error == ValueError || (r.error.KeyError? && r.error.key in keys)
    decreases |keys|
  {
    if keys == [] then Ok(df)
    else
      var d :- StandardizeColumn(df, keys[0], scale);
      StandardizeAll(d, keys[1..], scale)
  }

  /** Every cell of a column whose label is not in `keys` is the same in
      `df` and `r`. */
  predicate UntouchedOutside(df: Frame, r: Frame, keys: seq<string>)
    requires WellFormed(df) && WellFormed(r) && r.columns == df.columns && |r.rows| == |df.rows|
  {
    forall i, p | 0 <= i < |df.rows| && 0 <= p < |df.columns| && df.columns[p] !in keys ::
      assert df.rows[i] in df.rows && r.rows[i] in r.rows;
      r.rows[i][p] == df.rows[i][p]
  }

  /** Every label in `keys` is a column of `df` holding numbers, and the
      same column of `r` holds the scaler's output on those numbers. */
  ghost predicate ScaledColumns(df: Frame, r: Frame, keys: seq<string>, scale: seq<real> -> seq<real>)
    requires WellFormed(df) && WellFormed(r) && r.columns == df.columns && |r.rows| == |df.rows| && Shaped(scale)
  {
    forall k | k in keys ::
      && k in df.columns
      && NumColumn(df, Col(df.columns, k))
      && forall i | 0 <= i < |df.rows| ::
           assert r.rows[i] in r.rows;
           r.rows[i][Col(df.columns, k)] == Num(scale(Values(df, Col(df.columns, k)))[i])
  }

  /** One turn of the loop touches no other column. */
  lemma StandardizeColumnUntouched(df: Frame, key: string, scale: seq<real> -> seq<real>)
    requires WellFormed(df) && Shaped(scale) && StandardizeColumn(df, key, scale).Ok?
    ensures key in df.columns
    ensures UntouchedOutside(df, StandardizeColumn(df, key, scale).value, [key])
  {
  }

  /** After the loop every listed column was there. */
  lemma {:induction false} StandardizeAllKeys(df: Frame, keys: seq<string>, scale: seq<real> -> seq<real>)
    requires WellFormed(df) && Shaped(scale) && StandardizeAll(df, keys, scale).Ok?
    ensures forall k | k in keys :: k in df.columns
    decreases |keys|
  {
    if keys != [] {
      var d := StandardizeColumn(df, keys[0], scale).value;
      var rest := keys[1..];
      assert StandardizeAll(df, keys, scale) == StandardizeAll(d, rest, scale);
      StandardizeAllKeys(d, rest, scale);
      forall k | k in keys ensures k in df.columns {
        if k != keys[0] {
          assert k in rest by {
            assert keys == [keys[0]] + rest;
          }
        }
      }
    }
  }

  /** Cells outside the columns labelled `keys[0]` kept by one step, and
      outside those labelled in the rest of `keys` kept by the next, are kept
      by both. */
  lemma UntouchedStep(df: Frame, d: Frame, r: Frame, keys: seq<string>)
    requires keys != [] && WellFormed(df) && WellFormed(d) && WellFormed(r)
    requires d.columns == df.columns && |d.rows| == |df.rows|
    requires r.columns == d.columns && |r.rows| == |d.rows|
    requires UntouchedOutside(df, d, [keys[0]]) && UntouchedOutside(d, r, keys[1..])
    ensures UntouchedOutside(df, r, keys)
  {
    forall i, p | 0 <= i < |df.rows| && 0 <= p < |df.columns| && df.columns[p] !in keys
      ensures r.rows[i][p] == df.rows[i][p]
    {
      assert df.columns[p] !in keys[1..];
      assert df.columns[p] !in [keys[0]];
    }
  }

  /** After the loop every listed column was there, and every column whose
      label is not listed is untouched. */
  lemma {:induction false} StandardizeAllUntouched(df: Frame, keys: seq<string>, scale: seq<real> -> seq<real>)
    requires WellFormed(df) && Shaped(scale) && StandardizeAll(df, keys, scale).Ok?
    ensures forall k | k in keys :: k in df.columns
    ensures UntouchedOutside(df, StandardizeAll(df, keys, scale).value, keys)
    decreases |keys|
  {
    StandardizeAllKeys(df, keys, scale);
    if keys != [] {
      var d := StandardizeColumn(df, keys[0], scale).value;
      var rest := keys[1..];
      assert StandardizeAll(df, keys, scale) == StandardizeAll(d, rest, scale);
      StandardizeAllUntouched(d, rest, scale);
      StandardizeColumnUntouched(df, keys[0], scale);
      UntouchedStep(df, d, StandardizeAll(d, rest, scale).value, keys);
    }
  }

  /** After the loop every listed column holds numbers only. */
  lemma {:induction false} StandardizeAllNumeric(df: Frame, keys: seq<string>, scale: seq<real> -> seq<real>)
    requires WellFormed(df) && Shaped(scale) && StandardizeAll(df, keys, scale).Ok?
    ensures forall k | k in keys :: k in df.columns
    ensures var r := StandardizeAll(df, keys, scale).value;
            forall k | k in keys :: NumColumn(r, Col(df.columns, k))
    decreases |keys|, 1
  {
    StandardizeAllKeys(df, keys, scale);
    if keys != [] {
      var d := StandardizeColumn(df, keys[0], scale).value;
      var rest := keys[1..];
      assert StandardizeAll(df, keys, scale) == StandardizeAll(d, rest, scale);
      StandardizeAllNumeric(d, rest, scale);
      StandardizeHeadNumeric(df, keys, scale);
      NumericStep(df.columns, StandardizeAll(d, rest, scale).value, keys);
    }
  }

  /** The first listed column and the rest of them hold numbers, so all do. */
  lemma NumericStep(labels: seq<string>, r: Frame, keys: seq<string>)
    requires keys != [] && WellFormed(r) && r.columns == labels
    requires forall k | k in keys :: k in labels
    requires NumColumn(r, Col(labels, keys[0]))
    requires forall k | k in keys[1..] :: NumColumn(r, Col(labels, k))
    ensures forall k | k in keys :: NumColumn(r, Col(labels, k))
  {
    forall k | k in keys ensures NumColumn(r, Col(labels, k)) {
      if k != keys[0] {
        assert k in keys[1..] by {
          assert keys == [keys[0]] + keys[1..];
        }
      }
    }
  }

  /** One turn of the loop leaves its column holding numbers. */
  lemma StandardizedNumeric(df: Frame, key: string, scale: seq<real> -> seq<real>)
    requires WellFormed(df) && Shaped(scale) && StandardizeColumn(df, key, scale).Ok?
    ensures key in df.columns
    ensures NumColumn(StandardizeColumn(df, key, scale).value, Col(df.columns, key))
  {
    var d := StandardizeColumn(df, key, scale).value;
    var j := Col(df.columns, key);
    forall i | 0 <= i < |df.rows| ensures d.rows[i][j].Num? {
    }
  }

  /** A numeric column at `j` that the later turns do not touch stays numeric. */
  lemma KeptNumeric(d: Frame, r: Frame, j: nat, rest: seq<string>)
    requires WellFormed(d) && WellFormed(r) && r.columns == d.columns && |r.rows| == |d.rows|
    requires j < |d.columns| && d.columns[j] !in rest && NumColumn(d, j)
    requires UntouchedOutside(d, r, rest)
    ensures NumColumn(r, j)
  {
    forall i | 0 <= i < |r.rows| ensures r.rows[i][j].Num? {
      assert r.rows[i][j] == d.rows[i][j];
    }
  }

  /** The first column of the loop holds numbers at its end, whether or not
      a later turn standardises it again. */
  lemma {:induction false} StandardizeHeadNumeric(df: Frame, keys: seq<string>, scale: seq<real> -> seq<real>)
    requires WellFormed(df) && Shaped(scale) && keys != [] && StandardizeAll(df, keys, scale).Ok?
    ensures keys[0] in df.columns
    ensures NumColumn(StandardizeAll(df, keys, scale).value, Col(df.columns, keys[0]))
    decreases |keys|, 0
  {
    var d := StandardizeColumn(df, keys[0], scale).value;
    var rest := keys[1..];
    assert StandardizeAll(df, keys, scale) == StandardizeAll(d, rest, scale);
    if keys[0] in rest {
      StandardizeAllNumeric(d, rest, scale);
    } else {
      StandardizedNumeric(df, keys[0], scale);
      StandardizeAllUntouched(d, rest, scale);
      KeptNumeric(d, StandardizeAll(d, rest, scale).value, Col(df.columns, keys[0]), rest);
    }
  }

  /** A column holding the same cells in two frames holds the same numbers. */
  lemma SameValues(df: Frame, d: Frame, j: nat)
    requires WellFormed(df) && WellFormed(d) && |d.rows| == |df.rows|
    requires j < |df.columns| && j < |d.columns| && NumColumn(d, j)
    requires forall i | 0 <= i < |df.rows| :: df.rows[i][j] == d.rows[i][j]
    ensures NumColumn(df, j) && Values(df, j) == Values(d, j)
  {
  }

  /** One turn of the loop puts the scaler's output on its column. */
  lemma StandardizedValues(df: Frame, key: string, scale: seq<real> -> seq<real>)
    requires WellFormed(df) && Shaped(scale) && StandardizeColumn(df, key, scale).Ok?
    ensures ScaledColumns(df, StandardizeColumn(df, key, scale).value, [key], scale)
  {
  }

  /** The head column's values after its own turn, kept by the later turns,
      and the other columns' values after the later turns, taken on cells the
      head's turn did not touch, give every column's values. */
  lemma ValuesStep(df: Frame, d: Frame, r: Frame, keys: seq<string>, scale: seq<real> -> seq<real>)
    requires keys != [] && keys[0] !in keys[1..]
    requires WellFormed(df) && WellFormed(d) && WellFormed(r) && Shaped(scale)
    requires d.columns == df.columns && r.columns == df.columns
    requires |d.rows| == |df.rows| && |r.rows| == |df.rows|
    requires ScaledColumns(df, d, [keys[0]], scale) && UntouchedOutside(df, d, [keys[0]])
    requires ScaledColumns(d, r, keys[1..], scale) && UntouchedOutside(d, r, keys[1..])
    ensures ScaledColumns(df, r, keys, scale)
  {
    var k0 := keys[0];
    assert k0 in [k0];
    var j0 := Col(df.columns, k0);
    forall k | k in keys
      ensures k in df.columns && NumColumn(df, Col(df.columns, k))
      ensures forall i | 0 <= i < |df.rows| ::
                r.rows[i][Col(df.columns, k)] == Num(scale(Values(df, Col(df.columns, k)))[i])
    {
      if k == k0 {
        forall i | 0 <= i < |df.rows| ensures r.rows[i][j0] == Num(scale(Values(df, j0))[i]) {
          assert df.columns[j0] !in keys[1..];
          assert r.rows[i][j0] == d.rows[i][j0];
        }
      } else {
        assert k in keys[1..] by {
          assert keys == [k0] + keys[1..];
        }
        var j := Col(df.columns, k);
        assert forall i | 0 <= i < |df.rows| :: df.rows[i][j] == d.rows[i][j] by {
          assert df.columns[j] !in [k0];
        }
        SameValues(df, d, j);
      }
    }
  }

  /** When no label is listed twice, the loop leaves every listed column
      holding the scaler's output on that column's numbers as they were
      before the loop. */
  lemma {:induction false} StandardizeAllValues(df: Frame, keys: seq<string>, scale: seq<real> -> seq<real>)
    requires WellFormed(df) && Shaped(scale) && Distinct(keys) && StandardizeAll(df, keys, scale).Ok?
    ensures ScaledColumns(df, StandardizeAll(df, keys, scale).value, keys, scale)
    decreases |keys|
  {
    if keys != [] {
      var rest := keys[1..];
      var d := StandardizeColumn(df, keys[0], scale).value;
      assert StandardizeAll(df, keys, scale) == StandardizeAll(d, rest, scale);
      DistinctTail(keys);
      StandardizeAllValues(d, rest, scale);
      StandardizeAllUntouched(d, rest, scale);
      StandardizedValues(df, keys[0], scale);
      StandardizeColumnUntouched(df, keys[0], scale);
      ValuesStep(df, d, StandardizeAll(d, rest, scale).value, keys, scale);
    }
  }

  /** Every label in `keys` names a column of numbers. */
  predicate NumericLabels(df: Frame, keys: seq<string>)
    requires WellFormed(df)
  {
    forall k | k in keys :: k in df.columns && NumColumn(df, Col(df.columns, k))
  }

  /** Columns of numbers the first turn of the loop does not touch are still
      columns of numbers for the later turns. */
  lemma RestNumeric(df: Frame, d: Frame, keys: seq<string>)
    requires keys != [] && WellFormed(df) && WellFormed(d)
    requires d.columns == df.columns && |d.rows| == |df.rows|
    requires keys[0] !in keys[1..] && NumericLabels(df, keys) && UntouchedOutside(df, d, [keys[0]])
    ensures NumericLabels(d, keys[1..])
  {
    forall k | k in keys[1..] ensures k in d.columns && NumColumn(d, Col(d.columns, k)) {
      assert k in keys by {
        assert keys == [keys[0]] + keys[1..];
      }
      var j := Col(df.columns, k);
      assert df.columns[j] !in [keys[0]];
      forall i | 0 <= i < |d.rows| ensures d.rows[i][j].Num? {
        assert df.rows[i][j].Num?;
      }
    }
  }

  /** When no label is listed twice, the loop succeeds exactly when the
      table has rows and every listed label names a column of numbers. */
  lemma {:induction false} StandardizeAllSucceeds(df: Frame, keys: seq<string>, scale: seq<real> -> seq<real>)
    requires WellFormed(df) && Shaped(scale) && Distinct(keys)
    ensures StandardizeAll(df, keys, scale).Ok? <==> keys == [] || (|df.rows| > 0 && NumericLabels(df, keys))
    decreases |keys|
  {
    if keys != [] {
      DistinctTail(keys);
      if StandardizeAll(df, keys, scale).Ok? {
        StandardizeAllValues(df, keys, scale);
      }
      if |df.rows| > 0 && NumericLabels(df, keys) {
        var d := StandardizeColumn(df, keys[0], scale).value;
        StandardizeColumnUntouched(df, keys[0], scale);
        RestNumeric(df, d, keys);
        StandardizeAllSucceeds(d, keys[1..], scale);
        assert StandardizeAll(df, keys, scale) == StandardizeAll(d, keys[1..], scale);
      }
    }
  }

  /** No numeric label is listed twice. */
  lemma NumericDistinct()
    ensures Distinct(Numeric)
  {
  }

  /** rec.py:63-66, the loop itself. */
  method Standardize(df: Frame, scale: seq<real> -> seq<real>) returns (r: Outcome<Frame>)
    requires WellFormed(df) && Shaped(scale)
    ensures r == StandardizeAll(df, Numeric, scale)
  {
    var t := df;
    var todo := Numeric;
    while todo != []
      invariant WellFormed(t)
      invariant StandardizeAll(t, todo, scale) == StandardizeAll(df, Numeric, scale)
      decreases |todo|
    {
      var step := StandardizeColumn(t, todo[0], scale);
      if step.Fail? {
        return Fail(step.error);
      }
      t := step.value;
      todo := todo[1..];
    }
    return Ok(t);
  }

  /** A cell `*=` accepts: a number, or NaN (which stays NaN). */
  predicate Scalable(c: Cell)
  {
    c.Num? || c.Missing?
  }

  /** A cell multiplied by `f`; NaN, and cells `*=` would reject, unchanged. */
  function Scaled(c: Cell, f: real): (d: Cell)
    ensures Scalable(d) <==> Scalable(c)
  {
    if c.Num? then Num(c.x * f) else c
  }

  /** `f` to the power `n`. */
  function Pow(f: real, n: nat): real
  {
    if n == 0 then 1.0 else f * Pow(f, n - 1)
  }

  /** Every cell under the label `key` can be multiplied. */
  predicate ScalableLabel(df: Frame, key: string)
    requires WellFormed(df)
  {
    forall i, p | 0 <= i < |df.rows| && 0 <= p < |df.columns| && df.columns[p] == key :: Scalable(df.rows[i][p])
  }

  /** `df[key] *= f` for a label that is there: every column with that label
      is multiplied, the rest is unchanged; a TypeError if one of its cells
      is text or a list. */
  function ScaleLabel(df: Frame, key: string, f: real): (r: Outcome<Frame>)
    requires WellFormed(df)
    ensures r.Ok? <==> ScalableLabel(df, key)
    ensures r.Fail? ==> r.error == TypeError
    ensures r.Ok? ==> WellFormed(r.value) && r.value.columns == df.columns && |r.value.rows| == |df.rows|
    ensures r.Ok? ==>
              forall i, p | 0 <= i < |df.rows| && 0 <= p < |df.columns| ::
                r.value.rows[i][p] == if df.columns[p] == key then Scaled(df.rows[i][p], f) else df.rows[i][p]
  {
    if ScalableLabel(df, key) then
      assert forall i | 0 <= i < |df.rows| :: df.rows[i] in df.rows;
      Ok(Frame(df.columns, seq(|df.rows|, i requires 0 <= i < |df.rows| =>
           seq(|df.columns|, p requires 0 <= p < |df.columns| =>
             if df.columns[p] == key then Scaled(df.rows[i][p], f) else df.rows[i][p]))))
    else Fail(TypeError)
  }

  /** The loop at rec.py:73-75 run over `genres`: a genre that is a column
      label has its columns multiplied, any other genre is skipped. */
  function WeightAll(df: Frame, genres: seq<string>, f: real): (r: Outcome<Frame>)
    requires WellFormed(df)
    ensures r.Ok? ==> WellFormed(r.value) && r.value.columns == df.columns && |r.value.rows| == |df.rows|
    ensures r.Fail? ==> r.error == TypeError
    decreases |genres|
  {
    if genres == [] then Ok(df)
    else if genres[0] in df.columns then
      var d :- ScaleLabel(df, genres[0], f);
      WeightAll(d, genres[1..], f)
    else WeightAll(df, genres[1..], f)
  }

  lemma ScaledTwice(c: Cell, f: real, n: nat)
    ensures Scaled(Scaled(c, f), Pow(f, n)) == Scaled(c, Pow(f, n + 1))
  {
    if c.Num? {
      assert c.x * f * Pow(f, n) == c.x * (f * Pow(f, n));
    }
  }

  /** The number of times `l` is among the genres splits into the head and
      the rest of the list. */
  lemma CountCons(genres: seq<string>, l: string)
    requires genres != []
    ensures multiset(genres)[l] == (if l == genres[0] then 1 else 0) + multiset(genres[1..])[l]
  {
    assert genres == [genres[0]] + genres[1..];
  }

  /** Every cell of a column named after one of `genres` can be multiplied. */
  predicate WeightReady(df: Frame, genres: seq<string>)
    requires WellFormed(df)
  {
    forall i, p | 0 <= i < |df.rows| && 0 <= p < |df.columns| && df.columns[p] in genres :: Scalable(df.rows[i][p])
  }

  /** The loop succeeds exactly when every column named after a picked genre
      can be multiplied. */
  lemma {:induction false} WeightSucceeds(df: Frame, genres: seq<string>, f: real)
    requires WellFormed(df)
    ensures WeightAll(df, genres, f).Ok? <==> WeightReady(df, genres)
    decreases |genres|
  {
    if genres != [] {
      var g := genres[0];
      var rest := genres[1..];
      assert forall l :: l in genres <==> l == g || l in rest by {
        assert genres == [g] + rest;
      }
      if g in df.columns {
        var step := ScaleLabel(df, g, f);
        if step.Ok? {
          var d := step.value;
          WeightSucceeds(d, rest, f);
          forall i, p | 0 <= i < |df.rows| && 0 <= p < |df.columns|
            ensures Scalable(d.rows[i][p]) <==> Scalable(df.rows[i][p])
          {
          }
        }
      } else {
        WeightSucceeds(df, rest, f);
      }
    }
  }

  /** When the loop succeeds, each cell has been multiplied by `f` once for
      every time its column's label is among the picked genres. */
  lemma {:induction false} WeightEffect(df: Frame, genres: seq<string>, f: real)
    requires WellFormed(df) && WeightAll(df, genres, f).Ok?
    ensures forall i, p | 0 <= i < |df.rows| && 0 <= p < |df.columns| ::
              WeightAll(df, genres, f).value.rows[i][p] == Scaled(df.rows[i][p], Pow(f, multiset(genres)[df.columns[p]]))
    decreases |genres|
  {
    var r := WeightAll(df, genres, f).value;
    if genres == [] {
      assert forall c: Cell :: Scaled(c, 1.0) == c;
    } else {
      var g := genres[0];
      var rest := genres[1..];
      if g in df.columns {
        var d := ScaleLabel(df, g, f).value;
        WeightEffect(d, rest, f);
        forall i, p | 0 <= i < |df.rows| && 0 <= p < |df.columns|
          ensures r.rows[i][p] == Scaled(df.rows[i][p], Pow(f, multiset(genres)[df.columns[p]]))
        {
          var n := multiset(rest)[df.columns[p]];
          CountCons(genres, df.columns[p]);
          assert r.rows[i][p] == Scaled(d.rows[i][p], Pow(f, n));
          if df.columns[p] == g {
            ScaledTwice(df.rows[i][p], f, n);
          }
        }
      } else {
        WeightEffect(df, rest, f);
        forall p | 0 <= p < |df.columns| ensures multiset(genres)[df.columns[p]] == multiset(rest)[df.columns[p]] {
          CountCons(genres, df.columns[p]);
        }
      }
    }
  }

  /** rec.py:70-75, the loop itself. */
  method Weight(df: Frame, genres: seq<string>) returns (r: Outcome<Frame>)
    requires WellFormed(df)
    ensures r == WeightAll(df, genres, GenreWeight)
  {
    var t := df;
    var todo := genres;
    while todo != []
      invariant WellFormed(t)
      invariant WeightAll(t, todo, GenreWeight) == WeightAll(df, genres, GenreWeight)
      decreases |todo|
    {
      if todo[0] in t.columns {
        var step := ScaleLabel(t, todo[0], GenreWeight);
        if step.Fail? {
          return Fail(step.error);
        }
        t := step.value;
      }
      todo := todo[1..];
    }
    return Ok(t);
  }
}
