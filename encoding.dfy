/**
 * Multi-hot encoding of the categorical columns (pages/rec.py:47-60). Each
 * column's cells are split into atoms; scikit-learn's MultiLabelBinarizer
 * adds one indicator column per distinct atom of the pool, in sorted order.
 * Genres are split on "," and their columns carry the bare atom; the other
 * five columns are split on ", " and their columns are named
 * "<column>_<atom>".
 */
module Encoding {
  import opened Strings
  import opened Table

  /** The columns encoded by the loop at rec.py:54, in loop order. */
  const Categorical: seq<string> := ["Type", "Producers", "Licensors", "Studios", "Source"]

  /** `astype(str)` of a cell in a text column: NaN becomes the text "nan". */
  function AsStr(c: Cell): string
    requires c.Text? || c.Missing?
  {
    if c.Text? then c.s else "nan"
  }

  /** Every cell of the column holds text or NaN, as `read_csv` leaves a
      column of strings. Holds trivially when the column is not there. */
  predicate TextColumn(df: Frame, key: string)
    requires WellFormed(df)
  {
    key in df.columns ==>
      forall row: seq<Cell> | row in df.rows :: row[Col(df.columns, key)].Text? || row[Col(df.columns, key)].Missing?
  }

  /** Every cell of `df` that is not NaN is still in `r`, at the same row
      and column. */
  predicate KeepsCells(df: Frame, r: Frame)
    requires WellFormed(df) && WellFormed(r) && |r.rows| == |df.rows| && |df.columns| <= |r.columns|
  {
    forall i, p | 0 <= i < |df.rows| && 0 <= p < |df.columns| && df.rows[i][p] != Missing ::
      assert r.rows[i] in r.rows;
      r.rows[i][p] == df.rows[i][p]
  }

  /** Each row's cell in column `j`, as text, split on `sep`. */
  function Pieces(df: Frame, j: nat, sep: string): (lists: seq<seq<string>>)
    requires WellFormed(df) && j < |df.columns| && sep != ""
    requires forall row: seq<Cell> | row in df.rows :: row[j].Text? || row[j].Missing?
    ensures |lists| == |df.rows|
  {
    seq(|df.rows|, i requires 0 <= i < |df.rows| => Split(AsStr(df.rows[i][j]), sep))
  }

  function Indicator(b: bool): Cell
  {
    if b then Num(1.0) else Num(0.0)
  }

  /** Each column from `start` on is named `prefix` followed by an atom
      that occurs in some list. */
  ghost predicate NamedByAtoms(names: seq<string>, lists: seq<seq<string>>, prefix: string)
  {
    forall k | 0 <= k < |names| :: prefix <= names[k] && Occurs(lists, names[k][|prefix|..])
  }

  /** The new columns follow their atoms' ascending order, as
      MultiLabelBinarizer's sorted `classes_` do. */
  predicate SortedByAtom(names: seq<string>, prefix: string)
  {
    forall k, m | 0 <= k < m < |names| ::
      prefix <= names[k] && prefix <= names[m] && Below(names[k][|prefix|..], names[m][|prefix|..])
  }

  /** Every atom that occurs in some list has its column. */
  ghost predicate EveryAtomNamed(names: seq<string>, lists: seq<seq<string>>, prefix: string)
  {
    forall a | Occurs(lists, a) :: prefix + a in names
  }

  /** In row i, a new column holds 1.0 if row i's list holds its atom and
      0.0 if not. */
  predicate IndicatorCells(r: Frame, start: nat, lists: seq<seq<string>>, prefix: string)
    requires WellFormed(r) && start <= |r.columns| && |lists| == |r.rows|
  {
    forall i, k | 0 <= i < |r.rows| && start <= k < |r.columns| ::
      prefix <= r.columns[k] && r.rows[i][k] == Indicator(r.columns[k][|prefix|..] in lists[i])
  }

  /** The columns from `start` on are a multi-hot encoding of `lists`. */
  ghost predicate MultiHot(r: Frame, start: nat, lists: seq<seq<string>>, prefix: string)
    requires WellFormed(r) && start <= |r.columns| && |lists| == |r.rows|
  {
    && NamedByAtoms(r.columns[start..], lists, prefix)
    && Distinct(r.columns[start..])
    && SortedByAtom(r.columns[start..], prefix)
    && EveryAtomNamed(r.columns[start..], lists, prefix)
    && IndicatorCells(r, start, lists, prefix)
  }

  /** The names of the new columns: `prefix` before each class. */
  function Names(classes: seq<string>, prefix: string): (names: seq<string>)
    ensures |names| == |classes|
    ensures forall k | 0 <= k < |classes| :: prefix <= names[k] && names[k][|prefix|..] == classes[k]
  {
    seq(|classes|, k requires 0 <= k < |classes| => prefix + classes[k])
  }

  /** One row of `mlb.fit_transform`: 1.0 under each class the list holds. */
  function Indicators(classes: seq<string>, atoms: seq<string>): (cells: seq<Cell>)
    ensures |cells| == |classes|
    ensures forall k | 0 <= k < |classes| :: cells[k] == Indicator(classes[k] in atoms)
  {
    seq(|classes|, k requires 0 <= k < |classes| => Indicator(classes[k] in atoms))
  }

  /** `pd.concat([df, DataFrame(mlb.fit_transform(lists), columns=names)], axis=1)`
      where the names are `prefix` + each class: the old columns stay in
      front, untouched, and the indicator block follows. */
  function Binarize(df: Frame, lists: seq<seq<string>>, prefix: string): (r: Frame)
    requires WellFormed(df) && |lists| == |df.rows|
    ensures WellFormed(r) && |r.rows| == |df.rows|
    ensures |df.columns| <= |r.columns| && r.columns[..|df.columns|] == df.columns
    ensures forall i | 0 <= i < |df.rows| :: r.rows[i][..|df.columns|] == df.rows[i]
  {
    var classes := Classes(lists);
    assert forall i | 0 <= i < |df.rows| :: df.rows[i] in df.rows;
    Frame(df.columns + Names(classes, prefix),
          seq(|df.rows|, i requires 0 <= i < |df.rows| => df.rows[i] + Indicators(classes, lists[i])))
  }

  lemma NamesEncode(classes: seq<string>, lists: seq<seq<string>>, prefix: string)
    requires Ascending(classes) && forall a :: a in classes <==> Occurs(lists, a)
    ensures NamedByAtoms(Names(classes, prefix), lists, prefix)
    ensures Distinct(Names(classes, prefix))
    ensures SortedByAtom(Names(classes, prefix), prefix)
    ensures EveryAtomNamed(Names(classes, prefix), lists, prefix)
  {
    var names := Names(classes, prefix);
    forall k | 0 <= k < |names| ensures Occurs(lists, names[k][|prefix|..]) {
      assert classes[k] in classes;
    }
    forall k, m | 0 <= k < m < |names| ensures names[k] != names[m] {
      AscendingDistinct(classes, k, m);
    }
    forall a | Occurs(lists, a) ensures prefix + a in names {
      var k :| 0 <= k < |classes| && classes[k] == a;
      assert names[k] == prefix + a;
    }
  }

  lemma IndicatorsEncode(df: Frame, r: Frame, classes: seq<string>, lists: seq<seq<string>>, prefix: string)
    requires WellFormed(df) && WellFormed(r) && |lists| == |df.rows| == |r.rows|
    requires r.columns == df.columns + Names(classes, prefix)
    requires forall i | 0 <= i < |df.rows| :: r.rows[i] == df.rows[i] + Indicators(classes, lists[i])
    ensures IndicatorCells(r, |df.columns|, lists, prefix)
  {
    var n := |df.columns|;
    forall i, k | 0 <= i < |r.rows| && n <= k < |r.columns|
      ensures prefix <= r.columns[k] && r.rows[i][k] == Indicator(r.columns[k][|prefix|..] in lists[i])
    {
      assert df.rows[i] in df.rows;
      assert r.columns[k] == Names(classes, prefix)[k - n];
      assert r.rows[i][k] == Indicators(classes, lists[i])[k - n];
    }
  }

  /** The block Binarize appends is a multi-hot encoding of `lists`. */
  lemma BinarizeEncodes(df: Frame, lists: seq<seq<string>>, prefix: string)
    requires WellFormed(df) && |lists| == |df.rows|
    ensures MultiHot(Binarize(df, lists, prefix), |df.columns|, lists, prefix)
  {
    var r := Binarize(df, lists, prefix);
    var classes := Classes(lists);
    assert r.columns[|df.columns|..] == Names(classes, prefix);
    NamesEncode(classes, lists, prefix);
    IndicatorsEncode(df, r, classes, lists, prefix);
  }

  /** A text column stays a text column when columns are appended after the
      old ones and column `j` is overwritten, if `j` is another column or
      gets text. */
  lemma TextKept(df: Frame, r: Frame, c: string, j: nat, cells: seq<Cell>)
    requires WellFormed(df) && WellFormed(r) && c in df.columns && TextColumn(df, c)
    requires |r.rows| == |df.rows| && |df.columns| <= |r.columns| && r.columns[..|df.columns|] == df.columns
    requires j < |df.columns| && |cells| == |df.rows|
    requires forall i | 0 <= i < |df.rows| :: r.rows[i][..|df.columns|] == df.rows[i][j := cells[i]]
    requires df.columns[j] != c || forall i | 0 <= i < |cells| :: cells[i].Text?
    ensures TextColumn(r, c)
  {
    var n := |df.columns|;
    assert r.columns == df.columns + r.columns[n..];
    FindAfterAppend(df.columns, r.columns[n..], c);
    var k := Col(df.columns, c);
    forall row: seq<Cell> | row in r.rows ensures row[k].Text? || row[k].Missing? {
      var i :| 0 <= i < |r.rows| && r.rows[i] == row;
      assert row[k] == r.rows[i][..n][k];
      assert df.rows[i] in df.rows;
    }
  }

  /** `astype(str)` gives a text cell back unchanged. */
  lemma AsStrKeepsText(df: Frame, j: nat, texts: seq<Cell>)
    requires WellFormed(df) && j < |df.columns|
    requires forall row: seq<Cell> | row in df.rows :: row[j].Text? || row[j].Missing?
    requires texts == seq(|df.rows|, i requires 0 <= i < |df.rows| => Text(AsStr(df.rows[i][j])))
    ensures forall i | 0 <= i < |df.rows| && df.rows[i][j] != Missing :: texts[i] == df.rows[i][j]
  {
    forall i | 0 <= i < |df.rows| && df.rows[i][j] != Missing ensures texts[i] == df.rows[i][j] {
      assert df.rows[i] in df.rows;
    }
  }

  /** Overwriting column `j` with cells that agree on its non-NaN cells, then
      appending columns, keeps every non-NaN cell. */
  lemma OverwriteKeeps(df: Frame, r: Frame, j: nat, cells: seq<Cell>)
    requires WellFormed(df) && WellFormed(r) && |r.rows| == |df.rows| && |df.columns| <= |r.columns|
    requires j < |df.columns| && |cells| == |df.rows|
    requires forall i | 0 <= i < |df.rows| :: r.rows[i][..|df.columns|] == df.rows[i][j := cells[i]]
    requires forall i | 0 <= i < |df.rows| && df.rows[i][j] != Missing :: cells[i] == df.rows[i][j]
    ensures KeepsCells(df, r)
  {
    forall i, p | 0 <= i < |df.rows| && 0 <= p < |df.columns| && df.rows[i][p] != Missing
      ensures r.rows[i][p] == df.rows[i][p]
    {
      assert df.rows[i] in df.rows && r.rows[i] in r.rows;
      assert r.rows[i][p] == r.rows[i][..|df.columns|][p];
    }
  }

  /** rec.py:47-51: the Genres column becomes the list of its text split on
      ",", and one column per distinct genre atom, named by the atom itself,
      is appended (GenresEncoded). Without a Genres column nothing happens. */
  function EncodeGenres(df: Frame): (r: Frame)
    requires WellFormed(df) && TextColumn(df, "Genres")
    ensures WellFormed(r) && |r.rows| == |df.rows|
    ensures |df.columns| <= |r.columns| && r.columns[..|df.columns|] == df.columns
    ensures "Genres" !in df.columns ==> r == df
    ensures forall c | c in df.columns && c != "Genres" && TextColumn(df, c) :: TextColumn(r, c)
  {
    if "Genres" !in df.columns then df
    else
      var j := Col(df.columns, "Genres");
      var lists := Pieces(df, j, ",");
      var tags := seq(|lists|, i requires 0 <= i < |lists| => Tags(lists[i]));
      var d := SetColumn(df, j, tags);
      var r := Binarize(d, lists, "");
      assert forall c | c in df.columns && c != "Genres" && TextColumn(df, c) :: TextColumn(r, c) by {
        forall c | c in df.columns && c != "Genres" && TextColumn(df, c) ensures TextColumn(r, c) {
          TextKept(df, r, c, j, tags);
        }
      }
      r
  }

  /** What EncodeGenres leaves: the old columns with Genres holding the
      split lists, followed by a multi-hot block over those lists whose
      column names are the bare atoms. */
  lemma GenresEncoded(df: Frame)
    requires WellFormed(df) && TextColumn(df, "Genres") && "Genres" in df.columns
    ensures var r := EncodeGenres(df);
            var j := Col(df.columns, "Genres");
            var lists := Pieces(df, j, ",");
            && (forall i | 0 <= i < |df.rows| :: r.rows[i][..|df.columns|] == df.rows[i][j := Tags(lists[i])])
            && MultiHot(r, |df.columns|, lists, "")
  {
    var j := Col(df.columns, "Genres");
    var lists := Pieces(df, j, ",");
    BinarizeEncodes(SetColumn(df, j, seq(|lists|, i requires 0 <= i < |lists| => Tags(lists[i]))), lists, "");
  }

  /** A label without '_' is none of the names "<col>_<atom>". */
  lemma PrefixedNamesAvoid(names: seq<string>, col: string, c: string)
    requires '_' !in c
    requires forall k | 0 <= k < |names| :: col + "_" <= names[k]
    ensures c !in names
  {
    forall k | 0 <= k < |names| ensures names[k] != c {
      assert names[k][|col|] == (col + "_")[|col|];
    }
  }

  /** One pass of the loop at rec.py:54-60: the column keeps its text (NaN
      becomes "nan"), and one column per distinct atom of its text split on
      ", ", named "<col>_<atom>", is appended (CategoricalEncoded). Without
      the column nothing happens. */
  function EncodeCategorical(df: Frame, col: string): (r: Frame)
    requires WellFormed(df) && TextColumn(df, col)
    ensures WellFormed(r) && |r.rows| == |df.rows|
    ensures |df.columns| <= |r.columns| && r.columns[..|df.columns|] == df.columns
    ensures col !in df.columns ==> r == df
    ensures KeepsCells(df, r)
    ensures forall c | '_' !in c && TextColumn(df, c) :: TextColumn(r, c)
  {
    if col !in df.columns then df
    else
      var j := Col(df.columns, col);
      var lists := Pieces(df, j, ", ");
      var texts := seq(|df.rows|, i requires 0 <= i < |df.rows| => Text(AsStr(df.rows[i][j])));
      var d := SetColumn(df, j, texts);
      var r := Binarize(d, lists, col + "_");
      var names := Names(Classes(lists), col + "_");
      assert r.columns == df.columns + names;
      AsStrKeepsText(df, j, texts);
      OverwriteKeeps(df, r, j, texts);
      CategoricalKeepsText(df, r, col, j, texts, names);
      r
  }

  /** The text columns other than the encoded one, whose labels have no '_',
      stay text columns: the appended "<col>_<atom>" names cannot take their
      labels. */
  lemma CategoricalKeepsText(df: Frame, r: Frame, col: string, j: nat, texts: seq<Cell>, names: seq<string>)
    requires WellFormed(df) && WellFormed(r) && col in df.columns && j == Col(df.columns, col)
    requires |r.rows| == |df.rows| && r.columns == df.columns + names
    requires forall k | 0 <= k < |names| :: col + "_" <= names[k]
    requires |texts| == |df.rows| && forall i | 0 <= i < |texts| :: texts[i].Text?
    requires forall i | 0 <= i < |df.rows| :: r.rows[i][..|df.columns|] == df.rows[i][j := texts[i]]
    ensures forall c | '_' !in c && TextColumn(df, c) :: TextColumn(r, c)
  {
    assert r.columns[..|df.columns|] == df.columns;
    forall c | '_' !in c && TextColumn(df, c) ensures TextColumn(r, c) {
      if c in df.columns {
        TextKept(df, r, c, j, texts);
      } else {
        PrefixedNamesAvoid(names, col, c);
      }
    }
  }

  /** What EncodeCategorical leaves: the old columns with `col` holding its
      text, followed by a multi-hot block over the ", "-split lists whose
      column names are "<col>_<atom>". */
  lemma CategoricalEncoded(df: Frame, col: string)
    requires WellFormed(df) && TextColumn(df, col) && col in df.columns
    ensures var r := EncodeCategorical(df, col);
            var j := Col(df.columns, col);
            var lists := Pieces(df, j, ", ");
            && (forall i | 0 <= i < |df.rows| :: r.rows[i][..|df.columns|] == df.rows[i][j := Text(AsStr(df.rows[i][j]))])
            && MultiHot(r, |df.columns|, lists, col + "_")
  {
    var j := Col(df.columns, col);
    var lists := Pieces(df, j, ", ");
    BinarizeEncodes(SetColumn(df, j, seq(|df.rows|, i requires 0 <= i < |df.rows| => Text(AsStr(df.rows[i][j])))), lists, col + "_");
  }

  /** Every column to encode is a text column whose label has no '_' (so no
      column the encoding appends can take its name). */
  predicate Encodable(df: Frame, cols: seq<string>)
    requires WellFormed(df)
  {
    forall c | c in cols :: '_' !in c && TextColumn(df, c)
  }

  /** The loop at rec.py:54-60 run over `cols`, front to back. */
  function EncodeEach(df: Frame, cols: seq<string>): (r: Frame)
    requires WellFormed(df) && Encodable(df, cols)
    ensures WellFormed(r) && |r.rows| == |df.rows|
    ensures |df.columns| <= |r.columns| && r.columns[..|df.columns|] == df.columns
    ensures KeepsCells(df, r)
    decreases |cols|
  {
    if cols == [] then df
    else
      var d := EncodeCategorical(df, cols[0]);
      var r := EncodeEach(d, cols[1..]);
      PrefixChain(df.columns, d.columns, r.columns);
      KeepsCellsChain(df, d, r);
      r
  }

  /** Cells kept by two steps in a row are kept by both. */
  lemma KeepsCellsChain(df: Frame, d: Frame, r: Frame)
    requires WellFormed(df) && WellFormed(d) && WellFormed(r)
    requires |d.rows| == |df.rows| && |r.rows| == |d.rows|
    requires |df.columns| <= |d.columns| <= |r.columns|
    requires KeepsCells(df, d) && KeepsCells(d, r)
    ensures KeepsCells(df, r)
  {
    forall i, p | 0 <= i < |df.rows| && 0 <= p < |df.columns| && df.rows[i][p] != Missing
      ensures r.rows[i][p] == df.rows[i][p]
    {
      assert d.rows[i] in d.rows;
      assert d.rows[i][p] == df.rows[i][p];
    }
  }

  /** rec.py:57-60: the loop over the five categorical columns. */
  function EncodeAll(df: Frame): (r: Frame)
    requires WellFormed(df) && Encodable(df, Categorical)
    ensures WellFormed(r) && |r.rows| == |df.rows|
    ensures |df.columns| <= |r.columns| && r.columns[..|df.columns|] == df.columns
    ensures KeepsCells(df, r)
  {
    EncodeEach(df, Categorical)
  }

  /** One turn of the loop: the remaining columns stay encodable. */
  lemma EncodeStep(df: Frame, cols: seq<string>)
    requires WellFormed(df) && Encodable(df, cols) && cols != []
    ensures Encodable(EncodeCategorical(df, cols[0]), cols[1..])
    ensures EncodeEach(df, cols) == EncodeEach(EncodeCategorical(df, cols[0]), cols[1..])
  {
  }

  /** The five categorical columns are there and hold text or NaN. */
  predicate CategoricalText(df: Frame)
    requires WellFormed(df)
  {
    && HasText(df, "Type")
    && HasText(df, "Producers")
    && HasText(df, "Licensors")
    && HasText(df, "Studios")
    && HasText(df, "Source")
  }

  /** The column is there and holds text or NaN. */
  predicate HasText(df: Frame, c: string)
    requires WellFormed(df)
  {
    c in df.columns && TextColumn(df, c)
  }

  /** The five categorical labels carry no '_'. */
  lemma CategoricalEncodable(df: Frame)
    requires WellFormed(df) && CategoricalText(df)
    ensures Encodable(df, Categorical)
  {
    forall c | c in Categorical ensures '_' !in c && TextColumn(df, c) {
      assert c == "Type" || c == "Producers" || c == "Licensors" || c == "Studios" || c == "Source";
    }
  }

  /** rec.py:54-60, the loop itself. */
  method EncodeCategoricals(df: Frame) returns (r: Frame)
    requires WellFormed(df) && Encodable(df, Categorical)
    ensures r == EncodeAll(df)
  {
    r := df;
    var todo := Categorical;
    while todo != []
      invariant WellFormed(r) && Encodable(r, todo)
      invariant EncodeEach(r, todo) == EncodeEach(df, Categorical)
      decreases |todo|
    {
      var col := todo[0];
      EncodeStep(r, todo);
      if col in r.columns {
        r := EncodeCategorical(r, col);
      } else {
        assert EncodeCategorical(r, col) == r;
      }
      todo := todo[1..];
    }
  }
}
