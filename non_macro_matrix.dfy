/**
 * The matrix constructors of `src/util/non_macro.rs`: `zeros`, `zeros_shape`,
 * `eye`, `eye_shape`, and the binders `cbind` and `rbind`, over the matrix
 * record of module Matrices. A failed `assert_eq!` is a `Panic` result.
 */
module NonMacroMatrix {
  import opened Matrices
  import opened NonMacro

  // =====================================================================
  // zeros, zeros_shape, eye, eye_shape
  // =====================================================================

  /** MATLAB-like `zeros(r, c)`: an `r`-by-`c` Row-major matrix of zeros. */
  function Zeros(r: nat, c: nat): (m: Matrix)
    ensures Valid(m) && m.row == r && m.col == c && m.shape == Row
    ensures forall i: nat, j: nat :: i < r && j < c ==> At(m, i, j) == 0.0
  {
    Matrix(seq(r * c, _ => 0.0), r, c, Row)
  }

  /** `zeros_shape(r, c, shape)`: the same zero matrix in the given layout. */
  function ZerosShape(r: nat, c: nat, shape: Shape): (m: Matrix)
    ensures Valid(m) && m.row == r && m.col == c && m.shape == shape
    ensures forall i: nat, j: nat :: i < r && j < c ==> At(m, i, j) == 0.0
  {
    Matrix(seq(r * c, _ => 0.0), r, c, shape)
  }

  /** The documented call: `zeros(2, 2)` is the 2-by-2 Row matrix over four zeros. */
  lemma ZerosExample()
    ensures Zeros(2, 2) == Matrix([0.0, 0.0, 0.0, 0.0], 2, 2, Row)
  {
    assert Zeros(2, 2).data == [0.0, 0.0, 0.0, 0.0];
  }

  /** `m` is the `n`-by-`n` identity: ones on the diagonal, zeros elsewhere. */
  ghost predicate IsIdentity(m: Matrix, n: nat) {
    Valid(m) && m.row == n && m.col == n &&
    forall i: nat, j: nat :: i < n && j < n ==> At(m, i, j) == if i == j then 1.0 else 0.0
  }

  /** MATLAB-like `eye(n)`: zeros, then a one written at every diagonal entry. */
  method Eye(n: nat) returns (m: Matrix)
    ensures IsIdentity(m, n) && m.shape == Row
  {
    m := Zeros(n, n);
    for i := 0 to n
      invariant Valid(m) && m.row == n && m.col == n && m.shape == Row
      invariant forall a: nat, b: nat :: a < n && b < n ==>
                  At(m, a, b) == if a == b && a < i then 1.0 else 0.0
    {
      m := Set(m, i, i, 1.0);
    }
  }

  /** `eye_shape(n, shape)`: the identity in the given layout. */
  method EyeShape(n: nat, shape: Shape) returns (m: Matrix)
    ensures IsIdentity(m, n) && m.shape == shape
  {
    m := ZerosShape(n, n, shape);
    for i := 0 to n
      invariant Valid(m) && m.row == n && m.col == n && m.shape == shape
      invariant forall a: nat, b: nat :: a < n && b < n ==>
                  At(m, a, b) == if a == b && a < i then 1.0 else 0.0
    {
      m := Set(m, i, i, 1.0);
    }
  }

  /** The storage of the `n`-by-`n` identity: a one at every `(n + 1)`-th position. */
  function IdentityData(n: nat): seq<real> {
    seq(n * n, k => if k % (n + 1) == 0 then 1.0 else 0.0)
  }

  /** Storage position `i * n + j` is a multiple of `n + 1` exactly on the diagonal. */
  lemma DiagonalOffset(i: nat, j: nat, n: nat)
    requires i < n && j < n
    ensures (i * n + j) % (n + 1) == 0 <==> i == j
  {
    if j >= i {
      assert i * n + j == i * (n + 1) + (j - i);
      OffsetSplit(i, j - i, n + 1);
    } else {
      assert i * n + j == (i - 1) * (n + 1) + (n + 1 - (i - j));
      OffsetSplit(i - 1, n + 1 - (i - j), n + 1);
    }
  }

  /** One storage position of an identity matrix holds what `IdentityData` says. */
  lemma IdentityEntry(m: Matrix, n: nat, k: nat)
    requires IsIdentity(m, n) && k < n * n
    ensures m.data[k] == IdentityData(n)[k]
  {
    OffsetOf(k, n, n);
    var q, p := k / n, k % n;
    DiagonalOffset(q, p, n);
    match m.shape
    case Row =>
      assert Offset(m, q, p) == k;
      assert m.data[k] == At(m, q, p);
    case Col =>
      assert Offset(m, p, q) == k;
      assert m.data[k] == At(m, p, q);
  }

  /**
   * The identity has the same storage whatever its layout, so `eye(n)` and
   * `eye_shape(n, Col)` hold identical data vectors.
   */
  lemma IdentityStorage(m: Matrix, n: nat)
    requires IsIdentity(m, n)
    ensures m.data == IdentityData(n)
  {
    forall k | 0 <= k < n * n
      ensures m.data[k] == IdentityData(n)[k]
    {
      IdentityEntry(m, n, k);
    }
  }

  // =====================================================================
  // cbind and rbind
  // =====================================================================

  /** `m` in the given layout, changing it only when it differs. */
  function InLayout(m: Matrix, shape: Shape): (t: Matrix)
    requires Valid(m)
    ensures Valid(t) && t.row == m.row && t.col == m.col && t.shape == shape
    ensures SameEntries(t, m)
  {
    if m.shape != shape then ChangeShape(m) else m
  }

  /**
   * R-like `cbind(m1, m2)`: both operands in Col layout, the row counts must
   * agree, and the storage of `m2` is appended after that of `m1`.
   */
  function CBind(m1: Matrix, m2: Matrix): (r: Result<Matrix>)
    requires Valid(m1) && Valid(m2)
    ensures r.Panic? <==> m1.row != m2.row
    ensures r.Panic? ==> r.failure == RowCountMismatch
    ensures r.Ok? ==> Valid(r.value) && r.value.shape == Col &&
                      r.value.row == m1.row && r.value.col == m1.col + m2.col
    ensures r.Ok? ==> r.value.data == InLayout(m1, Col).data + InLayout(m2, Col).data
  {
    var t1, t2 := InLayout(m1, Col), InLayout(m2, Col);
    if t1.row != t2.row then Panic(RowCountMismatch)
    else
      assert t1.row * (t1.col + t2.col) == t1.row * t1.col + t2.row * t2.col;
      Ok(Matrix(t1.data + t2.data, t1.row, t1.col + t2.col, Col))
  }

  /** One entry of a cbind: from `m1` in its first columns, from `m2` after them. */
  lemma CBindEntry(m1: Matrix, m2: Matrix, i: nat, j: nat)
    requires Valid(m1) && Valid(m2) && m1.row == m2.row
    requires i < m1.row && j < m1.col + m2.col
    ensures CBind(m1, m2).Ok?
    ensures At(CBind(m1, m2).value, i, j) ==
              if j < m1.col then At(m1, i, j) else At(m2, i, j - m1.col)
  {
    var r := CBind(m1, m2).value;
    var t1, t2 := InLayout(m1, Col), InLayout(m2, Col);
    assert Offset(r, i, j) == j * m1.row + i;
    if j < m1.col {
      assert Offset(t1, i, j) == j * m1.row + i;
      assert r.data[j * m1.row + i] == t1.data[j * m1.row + i];
      assert At(t1, i, j) == At(m1, i, j);
    } else {
      var j2 := j - m1.col;
      assert j * m1.row == m1.col * m1.row + j2 * m1.row;
      assert Offset(t2, i, j2) == j2 * m2.row + i;
      assert r.data[j * m1.row + i] == t2.data[j2 * m2.row + i];
      assert At(t2, i, j2) == At(m2, i, j2);
    }
  }

  /** cbind places `m1`'s columns first and `m2`'s columns after them. */
  lemma CBindEntries(m1: Matrix, m2: Matrix)
    requires Valid(m1) && Valid(m2) && m1.row == m2.row
    ensures CBind(m1, m2).Ok?
    ensures var r := CBind(m1, m2).value;
      forall i: nat, j: nat :: i < r.row && j < r.col ==>
        At(r, i, j) == if j < m1.col then At(m1, i, j) else At(m2, i, j - m1.col)
  {
    var r := CBind(m1, m2).value;
    forall i: nat, j: nat | i < r.row && j < r.col
      ensures At(r, i, j) == if j < m1.col then At(m1, i, j) else At(m2, i, j - m1.col)
    {
      CBindEntry(m1, m2, i, j);
    }
  }

  /** The documented call: two 2-by-2 Col matrices 1..4 and 5..8 bind to the 2-by-4 matrix 1..8. */
  lemma CBindExample()
    ensures CBind(Matrix([1.0, 2.0, 3.0, 4.0], 2, 2, Col), Matrix([5.0, 6.0, 7.0, 8.0], 2, 2, Col))
         == Ok(Matrix([1.0, 2.0, 3.0, 4.0, 5.0, 6.0, 7.0, 8.0], 2, 4, Col))
  {
    var r := CBind(Matrix([1.0, 2.0, 3.0, 4.0], 2, 2, Col), Matrix([5.0, 6.0, 7.0, 8.0], 2, 2, Col));
    assert r.value.data == [1.0, 2.0, 3.0, 4.0] + [5.0, 6.0, 7.0, 8.0];
    assert r.value.data == [1.0, 2.0, 3.0, 4.0, 5.0, 6.0, 7.0, 8.0];
  }

  /**
   * R-like `rbind(m1, m2)`: both operands in Row layout, the column counts
   * must agree, and the storage of `m2` is appended after that of `m1`.
   */
  function RBind(m1: Matrix, m2: Matrix): (r: Result<Matrix>)
    requires Valid(m1) && Valid(m2)
    ensures r.Panic? <==> m1.col != m2.col
    ensures r.Panic? ==> r.failure == ColCountMismatch
    ensures r.Ok? ==> Valid(r.value) && r.value.shape == Row &&
                      r.value.row == m1.row + m2.row && r.value.col == m1.col
    ensures r.Ok? ==> r.value.data == InLayout(m1, Row).data + InLayout(m2, Row).data
  {
    var t1, t2 := InLayout(m1, Row), InLayout(m2, Row);
    if t1.col != t2.col then Panic(ColCountMismatch)
    else
      assert (t1.row + t2.row) * t1.col == t1.row * t1.col + t2.row * t2.col;
      Ok(Matrix(t1.data + t2.data, t1.row + t2.row, t1.col, Row))
  }

  /** One entry of an rbind: from `m1` in its first rows, from `m2` below them. */
  lemma RBindEntry(m1: Matrix, m2: Matrix, i: nat, j: nat)
    requires Valid(m1) && Valid(m2) && m1.col == m2.col
    requires i < m1.row + m2.row && j < m1.col
    ensures RBind(m1, m2).Ok?
    ensures At(RBind(m1, m2).value, i, j) ==
              if i < m1.row then At(m1, i, j) else At(m2, i - m1.row, j)
  {
    var r := RBind(m1, m2).value;
    var t1, t2 := InLayout(m1, Row), InLayout(m2, Row);
    assert Offset(r, i, j) == i * m1.col + j;
    if i < m1.row {
      assert Offset(t1, i, j) == i * m1.col + j;
      assert r.data[i * m1.col + j] == t1.data[i * m1.col + j];
      assert At(t1, i, j) == At(m1, i, j);
    } else {
      var i2 := i - m1.row;
      assert i * m1.col == m1.row * m1.col + i2 * m1.col;
      assert Offset(t2, i2, j) == i2 * m2.col + j;
      assert r.data[i * m1.col + j] == t2.data[i2 * m2.col + j];
      assert At(t2, i2, j) == At(m2, i2, j);
    }
  }

  /** rbind places `m1`'s rows first and `m2`'s rows below them. */
  lemma RBindEntries(m1: Matrix, m2: Matrix)
    requires Valid(m1) && Valid(m2) && m1.col == m2.col
    ensures RBind(m1, m2).Ok?
    ensures var r := RBind(m1, m2).value;
      forall i: nat, j: nat :: i < r.row && j < r.col ==>
        At(r, i, j) == if i < m1.row then At(m1, i, j) else At(m2, i - m1.row, j)
  {
    var r := RBind(m1, m2).value;
    forall i: nat, j: nat | i < r.row && j < r.col
      ensures At(r, i, j) == if i < m1.row then At(m1, i, j) else At(m2, i - m1.row, j)
    {
      RBindEntry(m1, m2, i, j);
    }
  }

  /** The documented call: two 2-by-2 Row matrices 1..4 and 5..8 bind to the 4-by-2 matrix 1..8. */
  lemma RBindExample()
    ensures RBind(Matrix([1.0, 2.0, 3.0, 4.0], 2, 2, Row), Matrix([5.0, 6.0, 7.0, 8.0], 2, 2, Row))
         == Ok(Matrix([1.0, 2.0, 3.0, 4.0, 5.0, 6.0, 7.0, 8.0], 4, 2, Row))
  {
    var r := RBind(Matrix([1.0, 2.0, 3.0, 4.0], 2, 2, Row), Matrix([5.0, 6.0, 7.0, 8.0], 2, 2, Row));
    assert r.value.data == [1.0, 2.0, 3.0, 4.0] + [5.0, 6.0, 7.0, 8.0];
    assert r.value.data == [1.0, 2.0, 3.0, 4.0, 5.0, 6.0, 7.0, 8.0];
  }
}
