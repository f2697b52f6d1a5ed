/**
 * The dense matrix record the constructors and binders work on: a flat
 * storage vector, the row and column counts, and the layout (Row-major or
 * Col-major) that says how entry (i, j) is found in the storage.
 */
module Matrices {

  datatype Shape = Row | Col

  datatype Matrix = Matrix(data: seq<real>, row: nat, col: nat, shape: Shape)

  /** The storage holds exactly one value per entry. */
  predicate Valid(m: Matrix) {
    |m.data| == m.row * m.col
  }

  function Other(s: Shape): (t: Shape)
    ensures t != s
  {
    if s == Row then Col else Row
  }

  // ---------------------------------------------------------------------
  // Arithmetic facts about row-major / column-major offsets
  // ---------------------------------------------------------------------

  /** Multiplying by a non-negative factor keeps the order. */
  lemma MulMonotone(a: int, b: int, n: nat)
    requires a <= b
    ensures a * n <= b * n
  {
    assert b * n == a * n + (b - a) * n;
  }

  /** An offset `q * n + p` with `p < n` lies inside an `m`-by-`n` block when `q < m`. */
  lemma OffsetBound(q: nat, p: nat, m: nat, n: nat)
    requires q < m && p < n
    ensures q * n + p < m * n
  {
    MulMonotone(q + 1, m, n);
  }

  /** Division by `n` recovers `q` and `p` from the offset `q * n + p`. */
  lemma OffsetSplit(q: nat, p: nat, n: nat)
    requires p < n
    ensures (q * n + p) / n == q && (q * n + p) % n == p
  {
    var k := q * n + p;
    var q', p' := k / n, k % n;
    assert k == q' * n + p' && 0 <= p' < n;
    if q' > q { MulMonotone(q + 1, q', n); }
    if q' < q { MulMonotone(q' + 1, q, n); }
  }

  /** A position below `m * n` exists only when both factors are positive. */
  lemma PositiveFactors(k: nat, m: nat, n: nat)
    requires k < m * n
    ensures m > 0 && n > 0
  {
    if m == 0 || n == 0 {
      assert false;
    }
  }

  /** Every offset below `m * n` splits as `(k / n) * n + k % n` with both parts in range. */
  lemma OffsetOf(k: nat, m: nat, n: nat)
    requires k < m * n
    ensures n > 0 && k / n < m && k % n < n && k == (k / n) * n + k % n
  {
    PositiveFactors(k, m, n);
    if k / n >= m {
      MulMonotone(m, k / n, n);
    }
  }

  // ---------------------------------------------------------------------
  // Indexing
  // ---------------------------------------------------------------------

  /** Position of entry (i, j) in the storage: `i * col + j` for Row, `j * row + i` for Col. */
  function Offset(m: Matrix, i: nat, j: nat): (k: nat)
    requires Valid(m) && i < m.row && j < m.col
    ensures k < |m.data|
  {
    match m.shape
    case Row => OffsetBound(i, j, m.row, m.col); i * m.col + j
    case Col => OffsetBound(j, i, m.col, m.row); j * m.row + i
  }

  /** Distinct entries live at distinct storage positions. */
  lemma OffsetInjective(m: Matrix, i: nat, j: nat, a: nat, b: nat)
    requires Valid(m) && i < m.row && j < m.col && a < m.row && b < m.col
    ensures Offset(m, i, j) == Offset(m, a, b) <==> i == a && j == b
  {
    match m.shape
    case Row =>
      OffsetSplit(i, j, m.col);
      OffsetSplit(a, b, m.col);
    case Col =>
      OffsetSplit(j, i, m.row);
      OffsetSplit(b, a, m.row);
  }

  /** Entry (i, j), read through the layout (the `m[(i, j)]` index operator). */
  function At(m: Matrix, i: nat, j: nat): real
    requires Valid(m) && i < m.row && j < m.col
  {
    m.data[Offset(m, i, j)]
  }

  /** Two matrices are the same entry by entry. */
  ghost predicate SameEntries(a: Matrix, b: Matrix)
    requires Valid(a) && Valid(b)
  {
    a.row == b.row && a.col == b.col &&
    forall i: nat, j: nat :: i < a.row && j < a.col ==> At(a, i, j) == At(b, i, j)
  }

  /** An offset below `m * n` as a quotient below `m` and a remainder below `n`. */
  lemma Split(k: nat, m: nat, n: nat) returns (q: nat, p: nat)
    requires k < m * n
    ensures q < m && p < n && q * n + p == k
  {
    OffsetOf(k, m, n);
    q, p := k / n, k % n;
  }

  /** Every storage position holds some entry (i, j) of the matrix. */
  lemma StoredEntry(m: Matrix, k: nat) returns (i: nat, j: nat)
    requires Valid(m) && k < |m.data|
    ensures i < m.row && j < m.col && Offset(m, i, j) == k
  {
    if m.shape == Row {
      i, j := Split(k, m.row, m.col);
    } else {
      assert k < m.col * m.row;
      j, i := Split(k, m.col, m.row);
    }
  }

  /** Dimensions, layout and entries determine a valid matrix completely. */
  lemma Extensionality(a: Matrix, b: Matrix)
    requires Valid(a) && Valid(b) && SameEntries(a, b) && a.shape == b.shape
    ensures a == b
  {
    forall k | 0 <= k < |a.data|
      ensures a.data[k] == b.data[k]
    {
      var i, j := StoredEntry(a, k);
      assert At(a, i, j) == At(b, i, j);
    }
  }

  /** Every entry other than (i, j) is stored away from entry (i, j). */
  lemma OthersElsewhere(m: Matrix, i: nat, j: nat)
    requires Valid(m) && i < m.row && j < m.col
    ensures forall a: nat, b: nat :: a < m.row && b < m.col && (a != i || b != j) ==>
              Offset(m, a, b) != Offset(m, i, j)
  {
    forall a: nat, b: nat | a < m.row && b < m.col && (a != i || b != j)
      ensures Offset(m, a, b) != Offset(m, i, j)
    {
      OffsetInjective(m, i, j, a, b);
    }
  }

  /**
   * Assignment to one entry (the `m[(i, j)] = x` index-assignment operator):
   * entry (i, j) becomes `x`, every other entry and the dimensions and layout
   * are kept.
   */
  function Set(m: Matrix, i: nat, j: nat, x: real): (r: Matrix)
    requires Valid(m) && i < m.row && j < m.col
    ensures Valid(r) && r.row == m.row && r.col == m.col && r.shape == m.shape
    ensures At(r, i, j) == x
    ensures forall a: nat, b: nat :: a < m.row && b < m.col && (a != i || b != j) ==>
              At(r, a, b) == At(m, a, b)
  {
    OthersElsewhere(m, i, j);
    m.(data := m.data[Offset(m, i, j) := x])
  }

  /** Position `k` of an `a`-by-`b` block, split by `a` and recombined by `b`, stays inside the block. */
  lemma SwapBound(k: nat, a: nat, b: nat)
    requires a > 0 && k < a * b
    ensures k / a < b && (k % a) * b + k / a < a * b
  {
    assert a * b == b * a;
    OffsetOf(k, b, a);
    OffsetBound(k % a, k / a, a, b);
  }

  /** Position `k` of an `a`-by-`b` block, split by `a` and recombined by `b`. */
  function SwapIndex(k: nat, a: nat, b: nat): (t: nat)
    requires a > 0 && k < a * b
    ensures t < a * b
  {
    SwapBound(k, a, b);
    (k % a) * b + k / a
  }

  /** Storage position `k` of an `m.row`-by-`m.col` matrix in the other layout. */
  function Transposed(m: Matrix, k: nat): (t: nat)
    requires Valid(m) && k < |m.data|
    ensures t < |m.data|
  {
    PositiveFactors(k, m.row, m.col);
    match m.shape
    case Row => SwapIndex(k, m.row, m.col)
    case Col =>
      assert m.row * m.col == m.col * m.row;
      SwapIndex(k, m.col, m.row)
  }

  /**
   * The layout change `change_shape`: the same matrix stored in the other
   * layout. Row-major storage is rewritten column by column and vice versa.
   */
  function ChangeShape(m: Matrix): (r: Matrix)
    requires Valid(m)
    ensures Valid(r) && r.row == m.row && r.col == m.col && r.shape == Other(m.shape)
    ensures SameEntries(r, m)
  {
    var r := Matrix(seq(|m.data|, k requires 0 <= k < |m.data| => m.data[Transposed(m, k)]),
                    m.row, m.col, Other(m.shape));
    ChangeShapeEntries(m, r);
    r
  }

  /** Reading storage through `Transposed` in the other layout gives back every entry. */
  lemma ChangeShapeEntries(m: Matrix, r: Matrix)
    requires Valid(m)
    requires r == Matrix(seq(|m.data|, k requires 0 <= k < |m.data| => m.data[Transposed(m, k)]),
                         m.row, m.col, Other(m.shape))
    ensures Valid(r) && SameEntries(r, m)
  {
    forall i: nat, j: nat | i < m.row && j < m.col
      ensures At(r, i, j) == At(m, i, j)
    {
      match m.shape
      case Row => OffsetSplit(j, i, m.row);
      case Col => OffsetSplit(i, j, m.col);
    }
  }

  /** Changing the layout twice gives back the original matrix. */
  lemma ChangeShapeTwice(m: Matrix)
    requires Valid(m)
    ensures ChangeShape(ChangeShape(m)) == m
  {
    var r := ChangeShape(ChangeShape(m));
    assert r.shape == m.shape;
    Extensionality(r, m);
  }
}
