/**
 * Python string behaviour that the recommendation page relies on:
 * `str.split(sep)`, `sep.join(parts)`, the code-point order that
 * `sorted` uses on `str`, and the sorted set of distinct labels that
 * scikit-learn's MultiLabelBinarizer takes as its `classes_`.
 */
module Strings {

  /** `s.split(sep)` for a non-empty separator: cut at every leftmost,
      non-overlapping occurrence of `sep`; never returns an empty list. */
  function Split(s: string, sep: string): (parts: seq<string>)
    requires sep != ""
    ensures |parts| >= 1
    decreases |s|
  {
    if |s| < |sep| then [s]
    else if s[..|sep|] == sep then [""] + Split(s[|sep|..], sep)
    else
      var rest := Split(s[1..], sep);
      [[s[0]] + rest[0]] + rest[1..]
  }

  /** `sep.join(parts)`. */
  function Join(parts: seq<string>, sep: string): (s: string)
    ensures |parts| == 1 ==> s == parts[0]
  {
    if |parts| == 0 then ""
    else if |parts| == 1 then parts[0]
    else parts[0] + sep + Join(parts[1..], sep)
  }

  /** Joining the pieces of a split with the same separator gives the text back. */
  lemma {:induction false} JoinSplit(s: string, sep: string)
    requires sep != ""
    ensures Join(Split(s, sep), sep) == s
    decreases |s|
  {
    if |s| < |sep| {
    } else if s[..|sep|] == sep {
      var rest := Split(s[|sep|..], sep);
      JoinSplit(s[|sep|..], sep);
      assert Split(s, sep) == [""] + rest;
      assert Join([""] + rest, sep) == "" + sep + Join(rest, sep) by {
        assert ([""] + rest)[1..] == rest;
      }
      assert s == s[..|sep|] + s[|sep|..];
    } else {
      var rest := Split(s[1..], sep);
      JoinSplit(s[1..], sep);
      var parts := [[s[0]] + rest[0]] + rest[1..];
      assert Split(s, sep) == parts;
      if |rest| == 1 {
        assert parts == [[s[0]] + rest[0]];
      } else {
        assert parts[1..] == rest[1..];
        assert Join(rest, sep) == rest[0] + sep + Join(rest[1..], sep);
      }
      assert s == [s[0]] + s[1..];
    }
  }

  /** `sep` occurs nowhere in `p`. */
  ghost predicate Free(p: string, sep: string)
  {
    forall i, j | 0 <= i <= j <= |p| && j - i == |sep| :: p[i..j] != sep
  }

  /** The first piece of a split is a prefix of the text. */
  lemma {:induction false} SplitHeadPrefix(s: string, sep: string)
    requires sep != ""
    ensures |Split(s, sep)[0]| <= |s| && Split(s, sep)[0] == s[..|Split(s, sep)[0]|]
    decreases |s|
  {
    if |s| >= |sep| && s[..|sep|] != sep {
      SplitHeadPrefix(s[1..], sep);
    }
  }

  /** A character that does not start the separator, put before a piece
      free of it that continues the text, leaves the piece free. */
  lemma ConsFree(s: string, sep: string, piece: string)
    requires sep != "" && |s| >= |sep| && s[..|sep|] != sep
    requires Free(piece, sep) && |piece| < |s| && piece == s[1..1 + |piece|]
    ensures Free([s[0]] + piece, sep)
  {
    var head := [s[0]] + piece;
    forall i, j | 0 <= i <= j <= |head| && j - i == |sep| ensures head[i..j] != sep {
      if i == 0 {
        assert head[i..j] == s[..|sep|];
      } else {
        assert head[i..j] == piece[i - 1..j - 1];
      }
    }
  }

  /** No piece of a split holds the separator: every occurrence was cut. */
  lemma {:induction false} SplitPiecesFree(s: string, sep: string)
    requires sep != ""
    ensures forall k | 0 <= k < |Split(s, sep)| :: Free(Split(s, sep)[k], sep)
    decreases |s|
  {
    var parts := Split(s, sep);
    if |s| < |sep| {
      assert parts == [s];
      assert Free(s, sep);
    } else if s[..|sep|] == sep {
      var rest := Split(s[|sep|..], sep);
      SplitPiecesFree(s[|sep|..], sep);
      assert parts == [""] + rest;
      forall k | 0 <= k < |parts| ensures Free(parts[k], sep) {
        if k > 0 {
          assert parts[k] == rest[k - 1];
        }
      }
    } else {
      var rest := Split(s[1..], sep);
      SplitPiecesFree(s[1..], sep);
      SplitHeadPrefix(s[1..], sep);
      ConsFree(s, sep, rest[0]);
      assert parts == [[s[0]] + rest[0]] + rest[1..];
      forall k | 1 <= k < |parts| ensures Free(parts[k], sep) {
        assert parts[k] == rest[k];
      }
    }
  }

  /** A comma with no blank after it is not a ", " separator:
      "A,B, C".split(", ") gives "A,B" and "C". */
  lemma SplitBareComma()
    ensures Split("A,B, C", ", ") == ["A,B", "C"]
  {
    assert ", C"[..2] == ", " && ", C"[2..] == "C";
    assert Split(", C", ", ") == ["", "C"];
    assert "B, C"[..2] != ", " && "B, C"[1..] == ", C";
    assert ['B'] + "" == "B" && ["", "C"][1..] == ["C"];
    assert Split("B, C", ", ") == ["B", "C"];
    assert ",B, C"[..2] != ", " && ",B, C"[1..] == "B, C";
    assert [','] + "B" == ",B" && ["B", "C"][1..] == ["C"];
    assert Split(",B, C", ", ") == [",B", "C"];
    assert "A,B, C"[..2] != ", " && "A,B, C"[1..] == ",B, C";
    assert ['A'] + ",B" == "A,B" && [",B", "C"][1..] == ["C"];
  }

  /** Text in which the separator's first character never appears is not cut. */
  lemma {:induction false} SplitWhole(s: string, sep: string)
    requires sep != "" && sep[0] !in s
    ensures Split(s, sep) == [s]
    decreases |s|
  {
    if |s| >= |sep| {
      assert s[..|sep|][0] == s[0];
      SplitWhole(s[1..], sep);
      assert [s[0]] + s[1..] == s;
    }
  }

  /** The first piece ends at the first separator. */
  lemma {:induction false} SplitFirst(a: string, sep: string, b: string)
    requires sep != "" && sep[0] !in a
    ensures Split(a + sep + b, sep) == [a] + Split(b, sep)
    decreases |a|
  {
    var s := a + sep + b;
    if a == [] {
      assert s[..|sep|] == sep && s[|sep|..] == b;
    } else {
      assert s[..|sep|][0] == a[0];
      assert s[1..] == a[1..] + sep + b;
      SplitFirst(a[1..], sep, b);
      assert [a[0]] + a[1..] == a;
    }
  }

  /** Splitting on a one-character separator leaves the blank that follows
      the comma in a ", "-separated list at the head of the later piece
      ("Action, Drama" gives "Action" and " Drama"); splitting on ", " does
      not. */
  lemma CommaSplitKeepsBlank(a: string, b: string)
    requires ',' !in a && ',' !in b
    ensures Split(a + ", " + b, ",") == [a, " " + b]
    ensures Split(a + ", " + b, ", ") == [a, b]
  {
    assert a + ", " + b == a + "," + (" " + b);
    SplitFirst(a, ",", " " + b);
    SplitWhole(" " + b, ",");
    SplitFirst(a, ", ", b);
    SplitWhole(b, ", ");
  }

  /** Python's `<` on `str`: lexicographic by code point. */
  predicate Below(a: string, b: string)
    decreases |a|
  {
    |b| > 0 && (|a| == 0 || a[0] < b[0] || (a[0] == b[0] && Below(a[1..], b[1..])))
  }

  lemma {:induction false} BelowIrreflexive(a: string)
    ensures !Below(a, a)
    decreases |a|
  {
    if |a| > 0 {
      BelowIrreflexive(a[1..]);
    }
  }

  lemma {:induction false} BelowTransitive(a: string, b: string, c: string)
    requires Below(a, b) && Below(b, c)
    ensures Below(a, c)
    decreases |a|
  {
    if |a| > 0 && a[0] == b[0] && b[0] == c[0] {
      BelowTransitive(a[1..], b[1..], c[1..]);
    }
  }

  lemma {:induction false} BelowTotal(a: string, b: string)
    requires a != b
    ensures Below(a, b) || Below(b, a)
    decreases |a|
  {
    if |a| > 0 && |b| > 0 && a[0] == b[0] {
      BelowTotal(a[1..], b[1..]);
    }
  }

  /** Strictly increasing under Python's string order, hence duplicate-free. */
  predicate Ascending(xs: seq<string>)
  {
    forall i, j | 0 <= i < j < |xs| :: Below(xs[i], xs[j])
  }

  lemma AscendingDistinct(xs: seq<string>, i: nat, j: nat)
    requires Ascending(xs) && i < j < |xs|
    ensures xs[i] != xs[j]
  {
    BelowIrreflexive(xs[i]);
  }

  lemma BelowAll(x: string, xs: seq<string>)
    requires Ascending(xs) && xs != [] && Below(x, xs[0])
    ensures forall j | 0 <= j < |xs| :: Below(x, xs[j])
  {
    forall j | 0 < j < |xs| ensures Below(x, xs[j]) {
      BelowTransitive(x, xs[0], xs[j]);
    }
  }

  /** Adds one label to a sorted, duplicate-free list of labels. */
  function Insert(xs: seq<string>, x: string): (r: seq<string>)
    requires Ascending(xs)
    ensures Ascending(r)
    ensures forall y :: y in r <==> y in xs || y == x
  {
    if xs == [] then [x]
    else if x == xs[0] then xs
    else if Below(x, xs[0]) then
      BelowAll(x, xs);
      [x] + xs
    else
      BelowTotal(x, xs[0]);
      var tail := Insert(xs[1..], x);
      assert forall y | y in tail :: Below(xs[0], y) by {
        forall y | y in tail ensures Below(xs[0], y) {
          if y != x {
            var k :| 1 <= k < |xs| && xs[k] == y;
          }
        }
      }
      var r := [xs[0]] + tail;
      assert forall i, j | 0 <= i < j < |r| :: Below(r[i], r[j]) by {
        forall i, j | 0 <= i < j < |r| ensures Below(r[i], r[j]) {
          if i == 0 {
            assert r[j] == tail[j - 1];
            assert r[j] in tail;
          } else {
            assert r[i] == tail[i - 1] && r[j] == tail[j - 1];
          }
        }
      }
      r
  }

  /** Adds every label of `atoms` to a sorted, duplicate-free list. */
  function InsertAll(xs: seq<string>, atoms: seq<string>): (r: seq<string>)
    requires Ascending(xs)
    ensures Ascending(r)
    ensures forall y :: y in r <==> y in xs || y in atoms
    decreases |atoms|
  {
    if atoms == [] then xs
    else
      var r := InsertAll(Insert(xs, atoms[0]), atoms[1..]);
      assert forall y :: y in atoms <==> y == atoms[0] || y in atoms[1..] by {
        assert atoms == [atoms[0]] + atoms[1..];
      }
      r
  }

  /** A label occurs in some entry of a list of label lists. */
  ghost predicate Occurs(lists: seq<seq<string>>, a: string)
  {
    exists m | 0 <= m < |lists| :: a in lists[m]
  }

  /** `MultiLabelBinarizer().fit(lists).classes_`: every label that occurs
      anywhere, once each, in ascending order. */
  function Classes(lists: seq<seq<string>>): (r: seq<string>)
    ensures Ascending(r)
    ensures forall a :: a in r <==> Occurs(lists, a)
  {
    if lists == [] then []
    else
      var r := InsertAll(Classes(lists[1..]), lists[0]);
      assert forall a :: Occurs(lists, a) <==> a in lists[0] || Occurs(lists[1..], a) by {
        forall a ensures Occurs(lists, a) <==> a in lists[0] || Occurs(lists[1..], a) {
          if Occurs(lists, a) {
            var m :| 0 <= m < |lists| && a in lists[m];
            if m > 0 {
              assert a in lists[1..][m - 1];
            }
          }
          if Occurs(lists[1..], a) {
            var m :| 0 <= m < |lists[1..]| && a in lists[1..][m];
            assert a in lists[m + 1];
          }
        }
      }
      r
  }
}
