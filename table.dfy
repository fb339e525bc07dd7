/**
 * The part of a pandas DataFrame that the recommendation page uses: an
 * ordered list of column labels and, per row, one cell per column. Rows are
 * positional; a label is looked up at its first column, as pandas does for
 * a frame without repeated labels.
 */
module Table {

  datatype Option<+T> = None | Some(value: T)

  /** The Python exceptions the page can raise on the way. */
  datatype Error =
    | KeyError(key: string)   // a column label that is not there
    | ValueError                // a cell that cannot be read as a float
    | TypeError                 // arithmetic or join on a cell of the wrong kind
    | AttributeError            // `.split` on a cell that is not a string
    | IndexError                // `.iloc[0]` on an empty selection

  datatype Outcome<+T> = Ok(value: T) | Fail(error: Error) {
    predicate IsFailure() { Fail? }
    function PropagateFailure<U>(): Outcome<U> requires Fail? { Fail(error) }
    function Extract(): T requires Ok? { value }
  }

  /** One cell: NaN, a string, a number, or a list of strings (what
      `str.split` leaves behind when a column is overwritten with it). */
  datatype Cell = Missing | Text(s: string) | Num(x: real) | Tags(atoms: seq<string>)

  datatype Frame = Frame(columns: seq<string>, rows: seq<seq<Cell>>)

  /** Every row has exactly one cell per column. */
  predicate WellFormed(df: Frame)
  {
    forall row | row in df.rows :: |row| == |df.columns|
  }

  /** Position of the first column labelled `key`. */
  function Find(labels: seq<string>, key: string): (r: Option<nat>)
    ensures r.None? <==> key !in labels
    ensures r.Some? ==> r.value < |labels| && labels[r.value] == key && key !in labels[..r.value]
  {
    if labels == [] then None
    else if labels[0] == key then Some(0)
    else match Find(labels[1..], key)
      case None => None
      case Some(k) =>
        assert labels[..k + 1] == [labels[0]] + labels[1..][..k];
        Some(k + 1)
  }

  /** Position of the first column labelled `key`, for a label that is there. */
  function Col(labels: seq<string>, key: string): (j: nat)
    requires key in labels
    ensures j < |labels| && labels[j] == key && key !in labels[..j]
  {
    Find(labels, key).value
  }

  /** Adding columns at the end never moves the first column of a label
      that is already there. */
  lemma FindAfterAppend(labels: seq<string>, more: seq<string>, key: string)
    requires key in labels
    ensures Find(labels + more, key) == Find(labels, key)
  {
    var j := Find(labels, key).value;
    var j' := Find(labels + more, key).value;
    assert (labels + more)[..j] == labels[..j];
    assert j' <= j by {
      assert (labels + more)[j] == key;
    }
    assert labels[j'] == key;
  }

  /** Positions, in column order, of the labels not listed in `excluded`. */
  function Keep(labels: seq<string>, excluded: seq<string>): (ps: seq<nat>)
    ensures forall k | 0 <= k < |ps| :: ps[k] < |labels| && labels[ps[k]] !in excluded
    ensures forall j | 0 <= j < |labels| && labels[j] !in excluded :: j in ps
    ensures forall k, m | 0 <= k < m < |ps| :: ps[k] < ps[m]
    decreases |labels|
  {
    if labels == [] then []
    else
      var front := labels[..|labels| - 1];
      var rest := Keep(front, excluded);
      if labels[|labels| - 1] in excluded then rest else rest + [|labels| - 1]
  }

  /** The frame made of the columns at positions `ps`, in that order. */
  function Select(df: Frame, ps: seq<nat>): (r: Frame)
    requires WellFormed(df)
    requires forall k | 0 <= k < |ps| :: ps[k] < |df.columns|
    ensures WellFormed(r) && |r.columns| == |ps| && |r.rows| == |df.rows|
    ensures forall k | 0 <= k < |ps| :: r.columns[k] == df.columns[ps[k]]
    ensures forall i, k | 0 <= i < |df.rows| && 0 <= k < |ps| :: r.rows[i][k] == df.rows[i][ps[k]]
  {
    Frame(seq(|ps|, k requires 0 <= k < |ps| => df.columns[ps[k]]),
          seq(|df.rows|, i requires 0 <= i < |df.rows| =>
            seq(|ps|, k requires 0 <= k < |ps| => df.rows[i][ps[k]])))
  }

  /** First name in `wanted` that is not a column label. */
  function FirstAbsent(wanted: seq<string>, labels: seq<string>): (r: Option<string>)
    ensures r.None? <==> forall w | w in wanted :: w in labels
    ensures r.Some? ==> r.value in wanted && r.value !in labels
  {
    if wanted == [] then None
    else if wanted[0] !in labels then Some(wanted[0])
    else FirstAbsent(wanted[1..], labels)
  }

  /** `df.drop(columns=names)`: a KeyError unless every name is a column;
      otherwise the remaining columns, in their order. */
  function Drop(df: Frame, names: seq<string>): (r: Outcome<Frame>)
    requires WellFormed(df)
    ensures r.Ok? <==> forall n | n in names :: n in df.columns
    ensures r.Fail? ==> r.error.KeyError? && r.error.key in names && r.error.key !in df.columns
    ensures r.Ok? ==> r.value == Select(df, Keep(df.columns, names))
  {
    match FirstAbsent(names, df.columns)
    case Some(n) => Fail(KeyError(n))
    case None => Ok(Select(df, Keep(df.columns, names)))
  }

  /** `df[label] = cells` on the column at `j`. */
  function SetColumn(df: Frame, j: nat, cells: seq<Cell>): (r: Frame)
    requires WellFormed(df) && j < |df.columns| && |cells| == |df.rows|
    ensures WellFormed(r) && r.columns == df.columns && |r.rows| == |df.rows|
    ensures forall i | 0 <= i < |df.rows| :: r.rows[i] == df.rows[i][j := cells[i]]
  {
    assert forall i | 0 <= i < |df.rows| :: df.rows[i] in df.rows;
    Frame(df.columns, seq(|df.rows|, i requires 0 <= i < |df.rows| => df.rows[i][j := cells[i]]))
  }

  /** No entry is listed twice. */
  predicate Distinct<T(==)>(xs: seq<T>)
  {
    forall i, j | 0 <= i < j < |xs| :: xs[i] != xs[j]
  }

  /** The tail of a list without repeats has none either, nor its head. */
  lemma DistinctTail<T>(xs: seq<T>)
    requires xs != [] && Distinct(xs)
    ensures Distinct(xs[1..]) && xs[0] !in xs[1..]
  {
    forall a, b | 0 <= a < b < |xs| - 1 ensures xs[1..][a] != xs[1..][b] {
      assert xs[1..][a] == xs[a + 1] && xs[1..][b] == xs[b + 1];
    }
    forall b | 0 <= b < |xs| - 1 ensures xs[1..][b] != xs[0] {
      assert xs[1..][b] == xs[b + 1];
    }
  }

  /** `a` can be obtained from `b` by deleting entries. */
  predicate IsSubsequence<T(==)>(a: seq<T>, b: seq<T>)
    decreases |b|
  {
    if a == [] then true
    else if b == [] then false
    else (a[0] == b[0] && IsSubsequence(a[1..], b[1..])) || IsSubsequence(a, b[1..])
  }

  lemma {:induction false} SubsequencePrefix<T>(a: seq<T>, b: seq<T>, n: nat)
    requires IsSubsequence(a, b) && n <= |a|
    ensures IsSubsequence(a[..n], b)
    decreases |b|
  {
    if n == 0 {
    } else if a[0] == b[0] && IsSubsequence(a[1..], b[1..]) {
      SubsequencePrefix(a[1..], b[1..], n - 1);
      assert a[..n][1..] == a[1..][..n - 1];
    } else {
      SubsequencePrefix(a, b[1..], n);
    }
  }

  /** Columns kept at the front of columns kept at the front stay at the
      front. */
  lemma PrefixChain<T>(a: seq<T>, b: seq<T>, c: seq<T>)
    requires |a| <= |b| <= |c| && b[..|a|] == a && c[..|b|] == b
    ensures c[..|a|] == a
  {
    assert c[..|a|] == c[..|b|][..|a|];
  }

  /** An entry of a subsequence is an entry of the whole. */
  lemma {:induction false} SubsequenceMembers<T>(a: seq<T>, b: seq<T>)
    requires IsSubsequence(a, b)
    ensures forall x | x in a :: x in b
    decreases |b|
  {
    if a != [] {
      if a[0] == b[0] && IsSubsequence(a[1..], b[1..]) {
        SubsequenceMembers(a[1..], b[1..]);
        assert forall x | x in a :: x == a[0] || x in a[1..] by {
          assert a == [a[0]] + a[1..];
        }
      } else {
        SubsequenceMembers(a, b[1..]);
      }
    }
  }

  /** Keeps the entries that pass `keep`, in their order (a boolean mask or
      a list comprehension with an `if`). */
  function Filter<T(==,!new)>(xs: seq<T>, keep: T -> bool): (r: seq<T>)
    ensures forall x :: x in r <==> x in xs && keep(x)
    ensures IsSubsequence(r, xs)
    ensures |r| <= |xs|
  {
    if xs == [] then []
    else
      var rest := Filter(xs[1..], keep);
      assert forall x :: x in xs <==> x == xs[0] || x in xs[1..] by {
        assert xs == [xs[0]] + xs[1..];
      }
      if keep(xs[0]) then
        assert ([xs[0]] + rest)[1..] == rest;
        [xs[0]] + rest
      else
        assert rest == [] || IsSubsequence(rest, xs[1..]);
        rest
  }

  /** Each entry that passes is kept as often as it occurs; the others are
      gone. */
  lemma {:induction false} FilterCounts<T(!new)>(xs: seq<T>, keep: T -> bool)
    ensures forall x :: multiset(Filter(xs, keep))[x] == if keep(x) then multiset(xs)[x] else 0
  {
    if xs != [] {
      FilterCounts(xs[1..], keep);
      assert multiset(xs) == multiset{xs[0]} + multiset(xs[1..]) by {
        assert xs == [xs[0]] + xs[1..];
      }
    }
  }
}
