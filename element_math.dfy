/** Exact arithmetic over the flat element sequences of tensors: sums,
    row-major cells, dot products and per-row sums. */
module ElementMath {

  /** Product of two elements. Kept as a named function so that the solver
      treats elementwise products as terms rather than as nonlinear
      arithmetic. */
  function Times(x: real, y: real): real {
    x * y
  }

  /** Sum of a sequence of elements, accumulated left to right. */
  function Total(s: seq<real>): real {
    if s == [] then 0.0 else Total(s[..|s| - 1]) + s[|s| - 1]
  }

  lemma TotalSnoc(s: seq<real>, x: real)
    ensures Total(s + [x]) == Total(s) + x
  {
    assert (s + [x])[..|s|] == s;
  }

  lemma {:induction false} TotalConcat(a: seq<real>, b: seq<real>)
    ensures Total(a + b) == Total(a) + Total(b)
    decreases |b|
  {
    if b != [] {
      var b' := b[..|b| - 1];
      assert a + b == (a + b') + [b[|b| - 1]];
      TotalSnoc(a + b', b[|b| - 1]);
      TotalConcat(a, b');
      assert b == b' + [b[|b| - 1]];
      TotalSnoc(b', b[|b| - 1]);
    } else {
      assert a + b == a;
    }
  }

  /** A sequence of n copies of c sums to n * c. */
  lemma {:induction false} TotalConstant(s: seq<real>, c: real)
    requires forall k :: 0 <= k < |s| ==> s[k] == c
    ensures Total(s) == |s| as real * c
  {
    if s != [] {
      TotalConstant(s[..|s| - 1], c);
    }
  }

  /** Summing an elementwise sum is adding the two sums: adding tensors
      and then summing them agrees with summing each first. */
  lemma {:induction false} TotalPointwise(a: seq<real>, b: seq<real>, c: seq<real>)
    requires |a| == |b| == |c|
    requires forall k :: 0 <= k < |c| ==> c[k] == a[k] + b[k]
    ensures Total(c) == Total(a) + Total(b)
  {
    if c != [] {
      var n := |c| - 1;
      TotalPointwise(a[..n], b[..n], c[..n]);
    }
  }

  /** A factor of at least 1 does not shrink a product of sizes. */
  lemma ScaleAtLeast(pre: int, a: int, b: int)
    requires pre >= 1 && a >= 0 && b >= 0
    ensures a * b <= pre * a * b
  {
    assert pre * a * b == pre * (a * b);
  }

  /** Element (row, col) of a row-major matrix with `stride` columns. */
  function Cell(v: seq<real>, stride: int, row: int, col: int): real
    requires 0 <= row * stride + col < |v|
  {
    v[row * stride + col]
  }

  lemma RowIndexBound(k: nat, n: nat, p: nat, j: nat)
    requires k < n && j < p
    ensures k * p + j < n * p
  {
    assert k * p <= (n - 1) * p;
  }

  /** Sum over k < len of a[i][k] * b[k][j], where a has n columns and b has
      p columns, both row-major. */
  function Dot(a: seq<real>, b: seq<real>, n: nat, p: nat, i: nat, j: nat, len: nat): real
    requires len <= n && (i + 1) * n <= |a| && n * p <= |b| && j < p
  {
    if len == 0 then 0.0
    else
      RowIndexBound(len - 1, n, p, j);
      Dot(a, b, n, p, i, j, len - 1) + Times(Cell(a, n, i, len - 1), Cell(b, p, len - 1, j))
  }

  lemma RowFits(i: nat, m: nat, n: nat)
    requires i < m
    ensures (i + 1) * n <= m * n
  {
    assert (i + 1) * n <= m * n;
  }

  /** The first i rows fit wherever all the rows do. */
  lemma PrefixRowsFit(i: nat, rows: nat, l: nat)
    requires i <= rows
    ensures i * l <= rows * l
  {
  }

  /** Sum of the `l` consecutive elements of row i. */
  function RowSum(v: seq<real>, l: nat, i: nat): real
    requires (i + 1) * l <= |v|
  {
    Total(v[i * l .. i * l + l])
  }

  /** The first `rows` row sums of v read as rows of length l. */
  function RowSums(v: seq<real>, rows: nat, l: nat): (r: seq<real>)
    requires rows * l <= |v|
    ensures |r| == rows
  {
    if rows == 0 then [] else RowSums(v, rows - 1, l) + [RowSum(v, l, rows - 1)]
  }

  lemma {:induction false} RowSumsAt(v: seq<real>, rows: nat, l: nat, i: nat)
    requires rows * l <= |v| && i < rows
    ensures (i + 1) * l <= |v| && RowSums(v, rows, l)[i] == RowSum(v, l, i)
  {
    if i < rows - 1 {
      RowSumsAt(v, rows - 1, l, i);
    }
  }

  /** Summing row by row loses nothing: the row sums add up to the sum of
      the first rows * l elements. */
  lemma {:induction false} RowSumsTotal(v: seq<real>, rows: nat, l: nat)
    requires rows * l <= |v|
    ensures Total(RowSums(v, rows, l)) == Total(v[..rows * l])
  {
    if rows > 0 {
      var lo, hi := (rows - 1) * l, rows * l;
      NextRow(rows - 1, l);
      assert hi == lo + l;
      RowSumsTotal(v, rows - 1, l);
      TotalSnoc(RowSums(v, rows - 1, l), RowSum(v, l, rows - 1));
      assert v[..hi] == v[..lo] + v[lo .. hi];
      TotalConcat(v[..lo], v[lo .. hi]);
    }
  }

  /** Row i of a matrix with non-empty rows starts at or after position i. */
  lemma RowStartAtLeast(i: nat, l: nat)
    ensures l == 0 || i <= i * l
  {
    if l > 0 {
      assert i * l == i * (l - 1) + i;
    }
  }

  /** Rows of positive length l fit within rows elements exactly when l
      is 1. */
  lemma RowsFitWidthOne(rows: nat, l: nat)
    requires rows >= 1 && l >= 1
    ensures rows * l <= rows <==> l == 1
  {
    if l > 1 {
      assert rows * l == rows * (l - 1) + rows;
      assert rows * (l - 1) >= 1 * 1;
    }
  }

  /** Row i + 1 starts where row i ends. */
  lemma NextRow(i: nat, l: nat)
    ensures (i + 1) * l == i * l + l
  {
  }

  /** With rows of length one the row sums are the elements themselves. */
  lemma {:induction false} RowSumsOfWidthOne(v: seq<real>, rows: nat)
    requires rows <= |v|
    ensures RowSums(v, rows, 1) == v[..rows]
  {
    if rows > 0 {
      RowSumsOfWidthOne(v, rows - 1);
      assert v[(rows - 1) * 1 .. (rows - 1) * 1 + 1] == [v[rows - 1]];
      TotalSnoc([], v[rows - 1]);
      assert [] + [v[rows - 1]] == [v[rows - 1]];
      assert v[..rows] == v[..rows - 1] + [v[rows - 1]];
    }
  }

  /** Cell (i, j) of c is the dot product of row i of a (m by n) with
      column j of b (n by p). */
  ghost predicate CellIs(c: seq<real>, a: seq<real>, b: seq<real>, m: nat, n: nat, p: nat, i: nat, j: nat)
    requires m * p <= |c| && m * n <= |a| && n * p <= |b| && i < m && j < p
  {
    RowIndexBound(i, m, p, j);
    RowFits(i, m, n);
    Cell(c, p, i, j) == Dot(a, b, n, p, i, j, n)
  }

  /** c begins with the m-by-p matrix product of a (m by n) and b (n by p),
      all row-major. */
  ghost predicate IsMatMulOf(c: seq<real>, a: seq<real>, b: seq<real>, m: nat, n: nat, p: nat) {
    && m * p <= |c| && m * n <= |a| && n * p <= |b|
    && forall i, j :: 0 <= i < m && 0 <= j < p ==> CellIs(c, a, b, m, n, p, i, j)
  }

  /** In row-major order, cell (i', j') comes strictly before cell (i, j)
      when its row does, or its column does in the same row. */
  lemma CellBefore(i': nat, j': nat, i: nat, j: nat, p: nat)
    requires j' < p && j < p
    requires i' < i || (i' == i && j' < j)
    ensures i' * p + j' < i * p + j
  {
    if i' < i {
      assert (i' + 1) * p <= i * p;
    }
  }

  /** Every cell before (i, j) in row-major order holds its dot product. */
  ghost predicate DoneUpTo(c: seq<real>, a: seq<real>, b: seq<real>, m: nat, n: nat, p: nat, i: nat, j: nat)
    requires m * p <= |c| && m * n <= |a| && n * p <= |b|
  {
    forall i', j' :: 0 <= i' < m && 0 <= j' < p && (i' < i || (i' == i && j' < j)) ==>
      CellIs(c, a, b, m, n, p, i', j')
  }

  /** Writing the dot product into cell (i, j) extends the finished prefix
      by one cell and leaves the earlier cells alone. */
  lemma DoneStep(c: seq<real>, a: seq<real>, b: seq<real>, m: nat, n: nat, p: nat, i: nat, j: nat, x: real)
    requires m * p <= |c| && m * n <= |a| && n * p <= |b| && i < m && j < p
    requires DoneUpTo(c, a, b, m, n, p, i, j)
    requires (RowFits(i, m, n); x == Dot(a, b, n, p, i, j, n))
    ensures (RowIndexBound(i, m, p, j); DoneUpTo(c[i * p + j := x], a, b, m, n, p, i, j + 1))
  {
    RowIndexBound(i, m, p, j);
    var c' := c[i * p + j := x];
    forall i', j' | 0 <= i' < m && 0 <= j' < p && (i' < i || (i' == i && j' < j + 1))
      ensures CellIs(c', a, b, m, n, p, i', j')
    {
      RowIndexBound(i', m, p, j');
      if i' < i || j' < j {
        CellBefore(i', j', i, j, p);
        assert CellIs(c, a, b, m, n, p, i', j');
      }
    }
  }

  /** Finishing row i is the same as starting row i + 1. */
  lemma DoneRow(c: seq<real>, a: seq<real>, b: seq<real>, m: nat, n: nat, p: nat, i: nat)
    requires m * p <= |c| && m * n <= |a| && n * p <= |b|
    requires DoneUpTo(c, a, b, m, n, p, i, p)
    ensures DoneUpTo(c, a, b, m, n, p, i + 1, 0)
  {
  }

  /** Once all m rows are finished, c holds the whole product. */
  lemma DoneAll(c: seq<real>, a: seq<real>, b: seq<real>, m: nat, n: nat, p: nat)
    requires m * p <= |c| && m * n <= |a| && n * p <= |b|
    requires DoneUpTo(c, a, b, m, n, p, m, 0)
    ensures IsMatMulOf(c, a, b, m, n, p)
  {
  }

  /** b is the n-by-n identity matrix in row-major order. */
  ghost predicate IsIdentity(b: seq<real>, n: nat) {
    && |b| == n * n
    && forall k, c :: 0 <= k < n && 0 <= c < n ==>
         (RowIndexBound(k, n, n, c);
          Cell(b, n, k, c) == if k == c then 1.0 else 0.0)
  }

  /** Multiplying by the identity on the right returns the row unchanged:
      the partial dot product over the first len columns picks out a[i][j]
      exactly when j < len. */
  lemma {:induction false} DotIdentity(a: seq<real>, b: seq<real>, n: nat, i: nat, j: nat, len: nat)
    requires IsIdentity(b, n)
    requires len <= n && (i + 1) * n <= |a| && j < n
    ensures Dot(a, b, n, n, i, j, len) == if j < len then Cell(a, n, i, j) else 0.0
  {
    if len > 0 {
      DotIdentity(a, b, n, i, j, len - 1);
      RowIndexBound(len - 1, n, n, j);
    }
  }

  /** A matrix product with the identity on the right reproduces the left
      operand: the first m * n elements of c are those of a. */
  lemma MatMulByIdentity(c: seq<real>, a: seq<real>, b: seq<real>, m: nat, n: nat)
    requires IsMatMulOf(c, a, b, m, n, n) && IsIdentity(b, n)
    ensures c[..m * n] == a[..m * n]
  {
    forall idx | 0 <= idx < m * n
      ensures c[idx] == a[idx]
    {
      var i, j := idx / n, idx % n;
      assert idx == i * n + j;
      assert i < m;
      assert CellIs(c, a, b, m, n, n, i, j);
      RowFits(i, m, n);
      DotIdentity(a, b, n, i, j, n);
    }
  }
}
