/**
 * The array and matrix helpers of the flow package: column-major conversion
 * between a flat state array and a matrix, copying a vector into an array,
 * and the in-place max-rescaling of a likelihood vector.
 */
module Utils {
  import opened Linalg

  // ---------------------------------------------------------------------------
  // Column-major layout

  /** Entry (i, j) of a `rows`-row matrix sits at flat index i + rows*j, and that index determines (i, j). */
  lemma ColumnMajorIndex(i: int, j: int, rows: int, cols: int)
    requires 0 <= i < rows && 0 <= j < cols
    ensures 0 <= i + rows * j < rows * cols
    ensures (i + rows * j) % rows == i && (i + rows * j) / rows == j
  {
    var k := i + rows * j;
    assert rows * j <= rows * (cols - 1) by {
      MulMonotone(rows, j, cols - 1);
    }
    assert rows * (cols - 1) == rows * cols - rows;
    var q, r := k / rows, k % rows;
    assert k == rows * q + r;
    assert rows * (q - j) == i - r;
    if q > j {
      MulMonotone(rows, 1, q - j);
    } else if q < j {
      MulMonotone(rows, 1, j - q);
    }
  }

  /** The flat index i + rows*j of entry (i, j). */
  function Pos(i: nat, j: nat, rows: nat, cols: nat): (p: nat)
    requires i < rows && j < cols
    ensures p < rows * cols && p % rows == i && p / rows == j
  {
    ColumnMajorIndex(i, j, rows, cols);
    i + rows * j
  }

  lemma MulMonotone(a: int, x: int, y: int)
    requires 0 <= a && x <= y
    ensures a * x <= a * y
  {
    assert a * y - a * x == a * (y - x);
  }

  /** Every flat index below rows*cols is the position of one entry. */
  lemma FlatIndexSplits(k: int, rows: int, cols: int)
    requires 0 <= k < rows * cols && 0 < rows
    ensures 0 <= k % rows < rows && 0 <= k / rows < cols
    ensures k == k % rows + rows * (k / rows)
  {
    if k / rows >= cols {
      MulMonotone(rows, cols, k / rows);
    }
  }

  lemma EmptyProduct(rows: nat, cols: nat)
    requires rows == 0
    ensures rows * cols == 0
  {
  }

  /** The n×n matrix that `toMatrix` reads out of a flat array, column by column. */
  function Unflatten(a: seq<real>, n: nat): (m: Matrix)
    requires n * n <= |a|
    ensures IsSquare(m, n)
  {
    seq(n, i requires 0 <= i < n =>
      seq(n, j requires 0 <= j < n =>
        ColumnMajorIndex(i, j, n, n); a[i + n * j]))
  }

  /** The flat array that `fillArray` writes for a `rows`×`cols` matrix. */
  function Flatten(m: Matrix, rows: nat, cols: nat): (a: seq<real>)
    requires IsMatrix(m, rows, cols)
    ensures |a| == rows * cols
  {
    if rows == 0 then EmptyProduct(rows, cols); []
    else
      seq(rows * cols, k requires 0 <= k < rows * cols =>
        FlatIndexSplits(k, rows, cols); m[k % rows][k / rows])
  }

  /** Column-major: entry (i, j) of the matrix is array[i + n*j]; only the first n·n entries are read. */
  lemma UnflattenColumnMajor(a: seq<real>, n: nat, i: nat, j: nat)
    requires n * n <= |a| && i < n && j < n
    ensures i + n * j < n * n
    ensures Unflatten(a, n)[i][j] == a[i + n * j] == Unflatten(a[..n * n], n)[i][j]
  {
    ColumnMajorIndex(i, j, n, n);
  }

  /** Writing a matrix out and reading it back gives the matrix. */
  lemma {:induction false} UnflattenFlatten(m: Matrix, n: nat)
    requires IsSquare(m, n)
    ensures Unflatten(Flatten(m, n, n), n) == m
  {
    var back := Unflatten(Flatten(m, n, n), n);
    forall i, j | 0 <= i < n && 0 <= j < n
      ensures back[i][j] == m[i][j]
    {
      ColumnMajorIndex(i, j, n, n);
    }
    assert forall i :: 0 <= i < n ==> back[i] == m[i];
  }

  /** Reading a matrix out of a flat array and writing it back restores the first n·n entries. */
  lemma {:induction false} FlattenUnflatten(a: seq<real>, n: nat)
    requires n * n <= |a|
    ensures Flatten(Unflatten(a, n), n, n) == a[..n * n]
  {
    var back := Flatten(Unflatten(a, n), n, n);
    if n > 0 {
      forall k | 0 <= k < n * n
        ensures back[k] == a[k]
      {
        FlatIndexSplits(k, n, n);
      }
    }
  }

  // ---------------------------------------------------------------------------
  // The conversions of Utils.java

  /** `toMatrix`: a new n×n matrix filled entry by entry from the column-major arr. */
  method ToMatrix(arr: array<real>, n: nat) returns (matrix: array2<real>)
    requires n * n <= arr.Length
    ensures fresh(matrix) && matrix.Length0 == n && matrix.Length1 == n
    ensures forall i, j :: 0 <= i < n && 0 <= j < n ==> matrix[i, j] == Unflatten(arr[..], n)[i][j]
  {
    matrix := new real[n, n];
    for i := 0 to n
      invariant forall i', j' :: 0 <= i' < i && 0 <= j' < n ==> matrix[i', j'] == Unflatten(arr[..], n)[i'][j']
    {
      for j := 0 to n
        invariant forall i', j' :: 0 <= i' < i && 0 <= j' < n ==> matrix[i', j'] == Unflatten(arr[..], n)[i'][j']
        invariant forall j' :: 0 <= j' < j ==> matrix[i, j'] == Unflatten(arr[..], n)[i][j']
      {
        ColumnMajorIndex(i, j, n, n);
        matrix[i, j] := arr[i + n * j];
      }
    }
  }

  /**
   * `fillArray`: entry (i, j) of a rows×cols matrix goes to array[i + rows*j];
   * entries of the array past rows*cols keep their values.
   */
  method FillArray(matrix: Matrix, rows: nat, cols: nat, arr: array<real>)
    requires IsMatrix(matrix, rows, cols) && rows * cols <= arr.Length
    modifies arr
    ensures arr[..] == Flatten(matrix, rows, cols) + old(arr[..])[rows * cols..]
  {
    for i := 0 to rows
      invariant forall i', j' :: 0 <= i' < i && 0 <= j' < cols ==> arr[Pos(i', j', rows, cols)] == matrix[i'][j']
      invariant forall k :: rows * cols <= k < arr.Length ==> arr[k] == old(arr[k])
    {
      for j := 0 to cols
        invariant forall i', j' :: 0 <= i' < i && 0 <= j' < cols ==> arr[Pos(i', j', rows, cols)] == matrix[i'][j']
        invariant forall j' :: 0 <= j' < j ==> arr[Pos(i, j', rows, cols)] == matrix[i][j']
        invariant forall k :: rows * cols <= k < arr.Length ==> arr[k] == old(arr[k])
      {
        arr[Pos(i, j, rows, cols)] := matrix[i][j];
      }
    }
    FlattenedInPlace(matrix, rows, cols, arr[..], old(arr[..]));
  }

  lemma FlattenedInPlace(matrix: Matrix, rows: nat, cols: nat, a: seq<real>, before: seq<real>)
    requires IsMatrix(matrix, rows, cols) && rows * cols <= |a| == |before|
    requires forall i', j' :: 0 <= i' < rows && 0 <= j' < cols ==> a[Pos(i', j', rows, cols)] == matrix[i'][j']
    requires forall k :: rows * cols <= k < |a| ==> a[k] == before[k]
    ensures a == Flatten(matrix, rows, cols) + before[rows * cols..]
  {
    var flat := Flatten(matrix, rows, cols);
    var whole := flat + before[rows * cols..];
    forall k | 0 <= k < |a|
      ensures a[k] == whole[k]
    {
      if k < rows * cols {
        FlatIndexSplits(k, rows, cols);
        assert Pos(k % rows, k / rows, rows, cols) == k;
      }
    }
  }

  /** `fillVector`: the vector's entries overwrite the front of the arr, later entries are kept. */
  method FillVector(vector: seq<real>, arr: array<real>)
    requires |vector| <= arr.Length
    modifies arr
    ensures arr[..] == vector + old(arr[..])[|vector|..]
  {
    for i := 0 to |vector|
      invariant arr[..i] == vector[..i]
      invariant arr[i..] == old(arr[..])[i..]
    {
      arr[i] := vector[i];
    }
  }

  // ---------------------------------------------------------------------------
  // Rescaling

  /**
   * The natural logarithm and exponential, left uninterpreted: `Lawful` keeps
   * only the facts the rescaling code depends on.
   */
  datatype Elementary = Elementary(ln: real -> real, exp: real -> real)

  ghost predicate Lawful(f: Elementary) {
    && f.ln(1.0) == 0.0
    && f.exp(0.0) == 1.0
    && (forall x :: f.exp(x) > 0.0)
    && (forall x :: x > 0.0 ==> f.exp(f.ln(x)) == x)
  }

  /** The maximum of the entries, or 1.0 for an empty arr (`stream().max().orElse(1.0)`). */
  function MaxOrOne(s: seq<real>): (m: real)
    ensures |s| == 0 ==> m == 1.0
    ensures |s| > 0 ==> m in s && forall k :: 0 <= k < |s| ==> s[k] <= m
  {
    if |s| == 0 then 1.0
    else if |s| == 1 then s[0]
    else
      var front := MaxOrOne(s[..|s| - 1]);
      if front < s[|s| - 1] then s[|s| - 1] else front
  }

  /** Every entry divided by `d`. */
  function Divided(s: seq<real>, d: real): (r: seq<real>)
    requires d != 0.0
    ensures |r| == |s|
  {
    seq(|s|, k requires 0 <= k < |s| => s[k] / d)
  }

  /**
   * `rescale(arr, previousLogFactor)`: divides every entry by the maximum,
   * in place, and returns log(max) + previousLogFactor.
   */
  method Rescale(arr: array<real>, previousLogFactor: real, f: Elementary) returns (logFactor: real)
    requires MaxOrOne(arr[..]) != 0.0
    modifies arr
    ensures arr[..] == Divided(old(arr[..]), MaxOrOne(old(arr[..])))
    ensures logFactor == f.ln(MaxOrOne(old(arr[..]))) + previousLogFactor
  {
    var max := MaxOrOne(arr[..]);
    ghost var before := arr[..];
    for i := 0 to arr.Length
      invariant arr[..i] == Divided(before, max)[..i]
      invariant arr[i..] == before[i..]
    {
      arr[i] := arr[i] / max;
    }
    logFactor := f.ln(max) + previousLogFactor;
  }

  /** `rescale(arr)`: the two-argument form with previous factor 0. */
  method RescaleFresh(arr: array<real>, f: Elementary) returns (logFactor: real)
    requires MaxOrOne(arr[..]) != 0.0
    modifies arr
    ensures arr[..] == Divided(old(arr[..]), MaxOrOne(old(arr[..])))
    ensures logFactor == f.ln(MaxOrOne(old(arr[..]))) + 0.0
  {
    logFactor := Rescale(arr, 0.0, f);
  }

  /**
   * What rescaling promises: with a positive maximum the length is kept, no
   * entry exceeds 1 and the maximal entries become exactly 1; an empty arr
   * is left alone and the factor passes through unchanged.
   */
  lemma RescaleNormalises(s: seq<real>, previousLogFactor: real, f: Elementary)
    requires Lawful(f)
    requires MaxOrOne(s) > 0.0
    ensures var r := Divided(s, MaxOrOne(s));
      && |r| == |s|
      && (forall k :: 0 <= k < |s| ==> r[k] <= 1.0)
      && (forall k :: 0 <= k < |s| && s[k] == MaxOrOne(s) ==> r[k] == 1.0)
      && (|s| > 0 ==> exists k :: 0 <= k < |s| && r[k] == 1.0)
      && (|s| == 0 ==> r == s && f.ln(MaxOrOne(s)) + previousLogFactor == previousLogFactor)
  {
    var m := MaxOrOne(s);
    var r := Divided(s, m);
    forall k | 0 <= k < |s|
      ensures r[k] <= 1.0
    {
      DivideBelowOne(s[k], m);
    }
    if |s| > 0 {
      var k :| 0 <= k < |s| && s[k] == m;
      assert r[k] == 1.0;
    }
  }

  lemma DivideBelowOne(x: real, m: real)
    requires 0.0 < m && x <= m
    ensures x / m <= 1.0
  {
  }

  /** `unscale(arr, logFactor)` as written: divides every entry by exp(logFactor). */
  method Unscale(arr: array<real>, logFactor: real, f: Elementary)
    requires Lawful(f)
    modifies arr
    ensures arr[..] == Divided(old(arr[..]), f.exp(logFactor))
  {
    var factor := f.exp(logFactor);
    ghost var before := arr[..];
    for i := 0 to arr.Length
      invariant arr[..i] == Divided(before, factor)[..i]
      invariant arr[i..] == before[i..]
    {
      arr[i] := arr[i] / f.exp(logFactor);
    }
  }

  /** With a zero factor `unscale` changes nothing. */
  lemma UnscaleByZeroIsIdentity(s: seq<real>, f: Elementary)
    requires Lawful(f)
    ensures Divided(s, f.exp(0.0)) == s
  {
  }

  /** Every entry multiplied by `c`. */
  function Multiplied(s: seq<real>, c: real): (r: seq<real>)
    ensures |r| == |s|
  {
    seq(|s|, k requires 0 <= k < |s| => s[k] * c)
  }

  /**
   * As written, `unscale` does not undo `rescale`: the rescaled vector [1.0]
   * of [2.0] comes back as [0.5].
   */
  lemma UnscaleDoesNotUndoRescale(f: Elementary)
    requires Lawful(f)
    ensures var s := [2.0];
      var logFactor := f.ln(MaxOrOne(s)) + 0.0;
      Divided(Divided(s, MaxOrOne(s)), f.exp(logFactor)) == [0.5] != s
  {
    var s := [2.0];
    assert MaxOrOne(s) == 2.0;
    assert f.exp(f.ln(2.0)) == 2.0;
    assert Divided(s, 2.0) == [1.0];
    assert Divided([1.0], 2.0) == [0.5];
  }

  /** The unscaling the rescale factor calls for: multiply every entry back by exp(logFactor). */
  method UnscaleCorrected(arr: array<real>, logFactor: real, f: Elementary)
    requires Lawful(f)
    modifies arr
    ensures arr[..] == Multiplied(old(arr[..]), f.exp(logFactor))
  {
    var factor := f.exp(logFactor);
    ghost var before := arr[..];
    for i := 0 to arr.Length
      invariant forall k :: 0 <= k < i ==> arr[k] == before[k] * factor
      invariant forall k :: i <= k < arr.Length ==> arr[k] == before[k]
    {
      arr[i] := arr[i] * factor;
    }
    assert forall k :: 0 <= k < arr.Length ==> arr[..][k] == Multiplied(before, factor)[k];
  }

  /** Rescaling (from factor 0) and then the corrected unscaling restores the vector. */
  lemma RescaleThenUnscaleCorrectedRestores(s: seq<real>, f: Elementary)
    requires Lawful(f)
    requires MaxOrOne(s) > 0.0
    ensures Multiplied(Divided(s, MaxOrOne(s)), f.exp(f.ln(MaxOrOne(s)) + 0.0)) == s
  {
    var m := MaxOrOne(s);
    assert f.exp(f.ln(m) + 0.0) == m by {
      assert f.ln(m) + 0.0 == f.ln(m);
    }
    RestoreAfterDivide(s, m);
  }

  lemma RestoreAfterDivide(s: seq<real>, m: real)
    requires m != 0.0
    ensures Multiplied(Divided(s, m), m) == s
  {
    var back := Multiplied(Divided(s, m), m);
    forall k | 0 <= k < |s|
      ensures back[k] == s[k]
    {
      DivideThenMultiply(s[k], m);
    }
  }

  lemma DivideThenMultiply(x: real, m: real)
    requires m != 0.0
    ensures x / m * m == x
  {
  }
}
