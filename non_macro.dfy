/**
 * The vector constructors of `src/util/non_macro.rs`: R/MATLAB/NumPy style
 * sequence builders (`seq`, `linspace`, `logspace` and their rounding
 * variants) and vector concatenation (`concat`, `cat`). The matrix
 * constructors of the same file are in module NonMacroMatrix.
 *
 * `f64` is idealised as `real`. The two floating-point library calls the file
 * makes, `powf` and `round_with_precision`, are passed in as function
 * parameters, so nothing is assumed about them beyond being functions.
 * A panic (`assert!`, `assert_eq!`, an index out of bounds) is a `Panic`
 * result.
 */
module NonMacro {
  /** Why a call panics. */
  datatype Failure =
    | EndBeforeStart      // `assert!(e >= s)` in seq, seq_with_precision, logspace
    | IndexOutOfBounds    // `v[0]` on the empty vector of length 0 in linspace, linspace_with_precision
    | RowCountMismatch    // `assert_eq!(r, temp2.row)` in cbind
    | ColCountMismatch    // `assert_eq!(c, temp2.col)` in rbind
    | LengthOverflow      // `factor.floor() as usize + 1` overflowing usize in seq, seq_with_precision

  datatype Result<T> = Ok(value: T) | Panic(failure: Failure)

  // =====================================================================
  // Real-number facts used below
  // =====================================================================

  /** Scaling by a positive factor keeps a non-strict order. */
  lemma ScaleMonotone(c: real, a: real, b: real)
    requires c > 0.0 && a <= b
    ensures c * a <= c * b
  {
    assert c * b - c * a == c * (b - a);
  }

  /** Scaling by a positive factor keeps a strict order. */
  lemma ScaleStrict(c: real, a: real, b: real)
    requires c > 0.0 && a < b
    ensures c * a < c * b
  {
    assert c * b - c * a == c * (b - a);
  }

  // =====================================================================
  // seq and seq_with_precision
  // =====================================================================

  /** The largest `usize` of a 64-bit target. */
  const USIZE_MAX: nat := 0xFFFF_FFFF_FFFF_FFFF

  /**
   * `x.floor() as usize` for a finite `x`. Rust's float-to-integer cast
   * saturates: a negative floor becomes 0 and a floor beyond the range
   * becomes `usize::MAX`.
   */
  function FloorToUsize(x: real): (n: nat)
    ensures n <= USIZE_MAX
    ensures x < 0.0 ==> n == 0
    ensures x >= 0.0 ==> n as real <= x
    ensures 0.0 <= x < USIZE_MAX as real ==> x < n as real + 1.0
    ensures x >= USIZE_MAX as real ==> n == USIZE_MAX
  {
    if x.Floor < 0 then 0 else if x.Floor >= USIZE_MAX then USIZE_MAX else x.Floor
  }

  /**
   * `((e - s) / step).floor() as usize`, the floor seq computes. A zero step
   * makes the factor NaN (when `e == s`), `+inf` (when `e > s`) or `-inf`
   * (when `e < s`); the cast sends NaN and `-inf` to 0 and `+inf` to
   * `usize::MAX`.
   */
  function FactorFloor(start: real, end: real, step: real): nat
  {
    if step != 0.0 then FloorToUsize((end - start) / step)
    else if end > start then USIZE_MAX
    else 0
  }

  /** The number of elements `factor.floor() as usize + 1` that seq allocates. */
  function SeqLength(start: real, end: real, step: real): nat
  {
    FactorFloor(start, end, step) + 1
  }

  /** What seq computes: `start + step * i` for every index of its length. */
  function SeqSpec(start: real, end: real, step: real): Result<seq<real>>
  {
    if end < start then Panic(EndBeforeStart)
    else if FactorFloor(start, end, step) == USIZE_MAX then Panic(LengthOverflow)
    else Ok(seq(SeqLength(start, end, step), i => start + step * i as real))
  }

  /** R-like `seq(start, end, step)`: allocate, then fill index by index. */
  method Seq(start: real, end: real, step: real) returns (r: Result<seq<real>>)
    ensures r == SeqSpec(start, end, step)
  {
    if end < start {
      return Panic(EndBeforeStart);
    }
    var n := FactorFloor(start, end, step);
    if n == USIZE_MAX {
      // `n + 1` overflows usize: a panic in a build with overflow checks
      return Panic(LengthOverflow);
    }
    var l := n + 1;
    ghost var w := SeqSpec(start, end, step).value;
    assert |w| == l;
    var v := seq(l, _ => 0.0);
    for i := 0 to l
      invariant |v| == l
      invariant forall k :: 0 <= k < i ==> v[k] == w[k]
    {
      v := v[i := start + step * i as real];
    }
    assert v == w;
    return Ok(v);
  }

  /**
   * seq panics when the end lies before the start (the `assert!`), and
   * otherwise exactly when the floor of the factor saturates at `usize::MAX`
   * so that the `+ 1` overflows: a zero step over a non-empty range, or a
   * range of at least `usize::MAX` steps.
   */
  lemma SeqPanics(start: real, end: real, step: real)
    ensures end < start ==> SeqSpec(start, end, step) == Panic(EndBeforeStart)
    ensures end >= start ==>
      (SeqSpec(start, end, step).Panic? <==>
         (step == 0.0 && end > start) || (step != 0.0 && (end - start) / step >= USIZE_MAX as real))
    ensures end >= start && SeqSpec(start, end, step).Panic? ==>
      SeqSpec(start, end, step).failure == LengthOverflow
  {
    if end >= start && step != 0.0 {
      var f := (end - start) / step;
      if f < USIZE_MAX as real {
        assert FactorFloor(start, end, step) < USIZE_MAX;
      }
    }
  }

  /** With a positive step the factor `(end - start) / step` is non-negative and brackets its floor. */
  lemma PositiveFactor(start: real, end: real, step: real, f: real)
    requires end >= start && step > 0.0 && f == (end - start) / step
    ensures f >= 0.0 && step * f == end - start
    ensures FloorToUsize(f) as real <= f
    ensures f < USIZE_MAX as real ==> f < FloorToUsize(f) as real + 1.0
  {
    assert step * f == end - start;
    if f < 0.0 {
      ScaleStrict(step, f, 0.0);
    }
  }

  /** The `i`-th point `start + step * i` of a positive-step seq lies in `[start, end]`. */
  lemma SeqPointInRange(start: real, end: real, step: real, i: nat)
    requires end >= start && step > 0.0
    requires i < SeqLength(start, end, step)
    ensures start <= start + step * i as real <= end
  {
    var f := (end - start) / step;
    var n := FloorToUsize(f);
    PositiveFactor(start, end, step, f);
    assert SeqLength(start, end, step) == n + 1;
    assert i as real <= n as real <= f;
    ScaleMonotone(step, 0.0, i as real);
    ScaleMonotone(step, i as real, f);
  }

  /** With a positive step, the point one past the last of seq lies beyond `end`. */
  lemma SeqOvershoot(start: real, end: real, step: real)
    requires end >= start && step > 0.0 && (end - start) / step < USIZE_MAX as real
    ensures end < start + step * SeqLength(start, end, step) as real
  {
    var f := (end - start) / step;
    var n := FloorToUsize(f);
    PositiveFactor(start, end, step, f);
    assert SeqLength(start, end, step) == n + 1;
    assert (n + 1) as real == n as real + 1.0;
    ScaleStrict(step, f, n as real + 1.0);
  }

  /**
   * With a positive step over a range of fewer than `usize::MAX` steps, seq
   * starts at `start`, never passes `end`, and stops only when one more step
   * would pass `end`.
   */
  lemma SeqCoversRange(start: real, end: real, step: real)
    requires end >= start && step > 0.0 && (end - start) / step < USIZE_MAX as real
    ensures SeqSpec(start, end, step).Ok?
    ensures var v := SeqSpec(start, end, step).value;
      |v| >= 1 && v[0] == start &&
      (forall i :: 0 <= i < |v| ==> start <= v[i] <= end) &&
      end < start + step * |v| as real
  {
    SeqPanics(start, end, step);
    var v := SeqSpec(start, end, step).value;
    forall i | 0 <= i < |v|
      ensures start <= v[i] <= end
    {
      SeqPointInRange(start, end, step, i);
    }
    SeqOvershoot(start, end, step);
  }

  /**
   * With a negative step, or with `end == start`, seq yields the single
   * element `start`: the negative factor is cast to 0.
   */
  lemma SeqSingleElement(start: real, end: real, step: real)
    requires end >= start && (step < 0.0 || end == start)
    ensures SeqSpec(start, end, step) == Ok([start])
  {
    if step != 0.0 {
      var f := (end - start) / step;
      assert f <= 0.0 by {
        if f > 0.0 {
          ScaleStrict(-step, 0.0, f);
        }
      }
    }
    assert SeqLength(start, end, step) == 1;
    assert SeqSpec(start, end, step).value == [start];
  }

  /** The two documented calls: `seq(1, 10, 2)` and `seq(1, 1, 1)`. */
  lemma SeqExamples()
    ensures SeqSpec(1.0, 10.0, 2.0) == Ok([1.0, 3.0, 5.0, 7.0, 9.0])
    ensures SeqSpec(1.0, 1.0, 1.0) == Ok([1.0])
  {
    assert FloorToUsize(9.0 / 2.0) == 4;
    assert SeqLength(1.0, 10.0, 2.0) == 5;
    assert SeqSpec(1.0, 10.0, 2.0).value == [1.0, 3.0, 5.0, 7.0, 9.0];
    assert SeqSpec(1.0, 1.0, 1.0).value == [1.0];
  }

  /** Point `i` of seq, rounded to `precision` digits. */
  function RoundedPoint(start: real, step: real, precision: nat, round: (real, nat) -> real,
                        i: int): real
  {
    round(start + step * i as real, precision)
  }

  /** What seq_with_precision computes: every element of seq, rounded. */
  function SeqWithPrecisionSpec(start: real, end: real, step: real, precision: nat,
                                round: (real, nat) -> real): Result<seq<real>>
  {
    if end < start then Panic(EndBeforeStart)
    else if FactorFloor(start, end, step) == USIZE_MAX then Panic(LengthOverflow)
    else Ok(seq(SeqLength(start, end, step), i => RoundedPoint(start, step, precision, round, i)))
  }

  /** `seq_with_precision(start, end, step, precision)`, filled index by index. */
  method SeqWithPrecision(start: real, end: real, step: real, precision: nat,
                          round: (real, nat) -> real) returns (r: Result<seq<real>>)
    ensures r == SeqWithPrecisionSpec(start, end, step, precision, round)
  {
    if end < start {
      return Panic(EndBeforeStart);
    }
    var n := FactorFloor(start, end, step);
    if n == USIZE_MAX {
      // `n + 1` overflows usize: a panic in a build with overflow checks
      return Panic(LengthOverflow);
    }
    var l := n + 1;
    ghost var w := SeqWithPrecisionSpec(start, end, step, precision, round).value;
    assert |w| == l;
    var v := seq(l, _ => 0.0);
    for i := 0 to l
      invariant |v| == l
      invariant forall k :: 0 <= k < i ==> v[k] == w[k]
    {
      assert w[i] == RoundedPoint(start, step, precision, round, i);
      v := v[i := round(start + step * i as real, precision)];
    }
    assert v == w;
    return Ok(v);
  }

  /**
   * seq_with_precision fails exactly when seq does, has the same length, and
   * its element `i` is seq's element `i` rounded.
   */
  lemma SeqWithPrecisionRoundsSeq(start: real, end: real, step: real, precision: nat,
                                  round: (real, nat) -> real)
    ensures var p, q := SeqWithPrecisionSpec(start, end, step, precision, round), SeqSpec(start, end, step);
      p.Panic? == q.Panic? &&
      (p.Panic? ==> p.failure == q.failure) &&
      (p.Ok? ==> |p.value| == |q.value| &&
                 forall i :: 0 <= i < |p.value| ==> p.value[i] == round(q.value[i], precision))
  {
    if SeqSpec(start, end, step).Ok? {
      var p, q := SeqWithPrecisionSpec(start, end, step, precision, round).value,
                  SeqSpec(start, end, step).value;
      forall i | 0 <= i < |p|
        ensures p[i] == round(q[i], precision)
      {
        assert p[i] == RoundedPoint(start, step, precision, round, i);
        assert q[i] == start + step * i as real;
      }
    }
  }

  // =====================================================================
  // linspace and linspace_with_precision
  // =====================================================================

  /** The spacing `(end - start) / (length - 1)`, or 0 when `length <= 1`. */
  function Step(start: real, end: real, length: nat): (h: real)
    ensures length > 1 ==> h * (length - 1) as real == end - start
    ensures length <= 1 ==> h == 0.0
  {
    if length > 1 then (end - start) / (length as real - 1.0) else 0.0
  }

  /**
   * What linspace computes. The first slot gets `start` and then the last slot
   * gets `end` (so a single slot ends up holding `end`); the interior slots
   * get `v[0] + step * i`.
   */
  function LinspaceSpec(start: real, end: real, length: nat): Result<seq<real>>
  {
    if length == 0 then Panic(IndexOutOfBounds)
    else
      var h := Step(start, end, length);
      Ok(seq(length, i =>
        if i == length - 1 then end
        else if i == 0 then start
        else start + h * i as real))
  }

  /** MATLAB-like `linspace(start, end, length)`, with its in-place fill. */
  method Linspace(start: real, end: real, length: nat) returns (r: Result<seq<real>>)
    ensures r == LinspaceSpec(start, end, length)
  {
    var step := if length > 1 then (end - start) / (length as real - 1.0) else 0.0;
    if length == 0 {
      return Panic(IndexOutOfBounds);
    }
    var v := seq(length, _ => 0.0);
    v := v[0 := start];
    v := v[length - 1 := end];
    var i := 1;
    while i < length - 1
      invariant 1 <= i && |v| == length
      invariant v[0] == (if length == 1 then end else start) && v[length - 1] == end
      invariant forall k :: 1 <= k < i && k < length - 1 ==> v[k] == start + step * k as real
    {
      v := v[i := v[0] + step * i as real];
      i := i + 1;
    }
    ghost var w := LinspaceSpec(start, end, length).value;
    assert |w| == |v|;
    forall k | 0 <= k < |v|
      ensures v[k] == w[k]
    {
      if 0 < k < length - 1 {
        assert v[k] == start + step * k as real;
      }
    }
    assert v == w;
    return Ok(v);
  }

  /**
   * With at least two elements, linspace is the arithmetic progression from
   * `start` to `end`: element `i` is `start + step * i` at every index,
   * including the last one, where it is exactly `end`.
   */
  lemma LinspaceProgression(start: real, end: real, length: nat)
    requires length >= 2
    ensures LinspaceSpec(start, end, length).Ok?
    ensures var v := LinspaceSpec(start, end, length).value;
      |v| == length && v[0] == start && v[length - 1] == end &&
      forall i :: 0 <= i < length ==> v[i] == start + Step(start, end, length) * i as real
  {
  }

  /** Two points of an arithmetic progression with a non-negative step are in order. */
  lemma ProgressionOrdered(v: seq<real>, start: real, h: real, i: nat, j: nat)
    requires h >= 0.0 && i <= j < |v|
    requires v[i] == start + h * i as real && v[j] == start + h * j as real
    ensures v[i] <= v[j]
  {
    assert h * j as real - h * i as real == h * (j - i) as real;
  }

  /** Element `i` of a linspace of at least two elements is `start + Step * i`. */
  lemma LinspacePoint(start: real, end: real, length: nat, i: nat)
    requires 2 <= length && i < length
    ensures LinspaceSpec(start, end, length).Ok?
    ensures LinspaceSpec(start, end, length).value[i] == start + Step(start, end, length) * i as real
  {
    LinspaceProgression(start, end, length);
  }

  /** With `start <= end` the spacing of linspace is non-negative. */
  lemma StepNonNegative(start: real, end: real, length: nat)
    requires start <= end
    ensures Step(start, end, length) >= 0.0
  {
    var h := Step(start, end, length);
    if length > 1 && h < 0.0 {
      ScaleStrict((length - 1) as real, h, 0.0);
    }
  }

  /** Two elements of a linspace from a lower start to a higher end are in order. */
  lemma LinspacePairOrdered(start: real, end: real, length: nat, i: nat, j: nat)
    requires start <= end && i <= j < length
    ensures LinspaceSpec(start, end, length).Ok?
    ensures LinspaceSpec(start, end, length).value[i] <= LinspaceSpec(start, end, length).value[j]
  {
    if length >= 2 {
      StepNonNegative(start, end, length);
      LinspacePoint(start, end, length, i);
      LinspacePoint(start, end, length, j);
      ProgressionOrdered(LinspaceSpec(start, end, length).value, start, Step(start, end, length), i, j);
    }
  }

  /** A longer linspace from a lower start to a higher end never decreases. */
  lemma LinspaceSorted(start: real, end: real, length: nat)
    requires start <= end && length >= 1
    ensures LinspaceSpec(start, end, length).Ok?
    ensures var v := LinspaceSpec(start, end, length).value;
      forall i, j :: 0 <= i <= j < |v| ==> v[i] <= v[j]
  {
    var v := LinspaceSpec(start, end, length).value;
    forall i, j | 0 <= i <= j < |v|
      ensures v[i] <= v[j]
    {
      LinspacePairOrdered(start, end, length, i, j);
    }
  }

  /**
   * The short cases: length 0 panics on `v[0]`; length 1 holds `end`, the
   * second write overwriting the first.
   */
  lemma LinspaceShort(start: real, end: real)
    ensures LinspaceSpec(start, end, 0) == Panic(IndexOutOfBounds)
    ensures LinspaceSpec(start, end, 1) == Ok([end])
  {
    assert LinspaceSpec(start, end, 1).value == [end];
  }

  /** A range of `k` whole steps `h` has factor floor `k`. */
  lemma WholeStepsFloor(start: real, h: real, k: nat)
    requires h > 0.0 && k < USIZE_MAX
    ensures FactorFloor(start, start + h * k as real, h) == k
  {
    assert (start + h * k as real - start) / h == k as real;
  }

  /** A range of `k >= 1` whole steps `h` split into `k + 1` points is spaced by `h`. */
  lemma WholeStepsSpacing(start: real, h: real, k: nat)
    requires h > 0.0 && k >= 1
    ensures Step(start, start + h * k as real, k + 1) == h
  {
    var g := Step(start, start + h * k as real, k + 1);
    assert g * k as real == h * k as real;
    assert (g - h) * k as real == 0.0;
  }

  /**
   * linspace agrees with seq whenever the range is a whole number `k` of
   * steps `h`: both give `start, start + h, ..., start + k * h`.
   */
  lemma LinspaceIsSeq(start: real, h: real, k: nat)
    requires h > 0.0 && k < USIZE_MAX
    ensures LinspaceSpec(start, start + h * k as real, k + 1) ==
            SeqSpec(start, start + h * k as real, h)
  {
    var end := start + h * k as real;
    WholeStepsFloor(start, h, k);
    var v, w := LinspaceSpec(start, end, k + 1).value, SeqSpec(start, end, h).value;
    assert |v| == |w| == k + 1;
    if k == 0 {
      assert v[0] == end == start + h * 0 as real == w[0];
    } else {
      WholeStepsSpacing(start, h, k);
      forall i | 0 <= i < k + 1
        ensures v[i] == w[i]
      {
        LinspacePoint(start, end, k + 1, i);
      }
    }
    assert v == w;
  }

  /** The documented call: `linspace(1, 10, 10)` equals `seq(1, 10, 1)` and has length 10. */
  lemma LinspaceExample()
    ensures LinspaceSpec(1.0, 10.0, 10) == SeqSpec(1.0, 10.0, 1.0)
    ensures LinspaceSpec(1.0, 10.0, 10).Ok? && |LinspaceSpec(1.0, 10.0, 10).value| == 10
  {
    LinspaceIsSeq(1.0, 1.0, 9);
  }

  /**
   * What linspace_with_precision computes: the endpoints are rounded, and the
   * interior slots round `v[0] + step * i`, where `v[0]` is the already
   * rounded start and the step comes from the unrounded endpoints.
   */
  function LinspaceWithPrecisionSpec(start: real, end: real, length: nat, precision: nat,
                                     round: (real, nat) -> real): Result<seq<real>>
  {
    if length == 0 then Panic(IndexOutOfBounds)
    else Ok(seq(length, i requires 0 <= i < length =>
                  LinspaceWithPrecisionAt(start, end, length, precision, round, i)))
  }

  /** Slot `i` of linspace_with_precision. */
  function LinspaceWithPrecisionAt(start: real, end: real, length: nat, precision: nat,
                                   round: (real, nat) -> real, i: nat): real
    requires i < length
  {
    if i == length - 1 then round(end, precision)
    else if i == 0 then round(start, precision)
    else round(round(start, precision) + Step(start, end, length) * i as real, precision)
  }

  /** `linspace_with_precision(start, end, length, precision)`, with its in-place fill. */
  method LinspaceWithPrecision(start: real, end: real, length: nat, precision: nat,
                               round: (real, nat) -> real) returns (r: Result<seq<real>>)
    ensures r == LinspaceWithPrecisionSpec(start, end, length, precision, round)
  {
    var step := if length > 1 then (end - start) / (length as real - 1.0) else 0.0;
    if length == 0 {
      return Panic(IndexOutOfBounds);
    }
    var v := seq(length, _ => 0.0);
    v := v[0 := round(start, precision)];
    v := v[length - 1 := round(end, precision)];
    var i := 1;
    while i < length - 1
      invariant 1 <= i && |v| == length
      invariant v[0] == LinspaceWithPrecisionAt(start, end, length, precision, round, 0)
      invariant v[length - 1] == round(end, precision)
      invariant forall k :: 1 <= k < i && k < length - 1 ==>
                  v[k] == LinspaceWithPrecisionAt(start, end, length, precision, round, k)
    {
      assert v[0] + step * i as real == round(start, precision) + Step(start, end, length) * i as real;
      v := v[i := round(v[0] + step * i as real, precision)];
      i := i + 1;
    }
    assert v == LinspaceWithPrecisionSpec(start, end, length, precision, round).value;
    return Ok(v);
  }

  /**
   * When `start` is already at the requested precision, linspace_with_precision
   * is linspace with every element rounded. (Otherwise the interior is built
   * from the rounded start, not from linspace's own elements.)
   */
  lemma LinspaceWithPrecisionRoundsLinspace(start: real, end: real, length: nat, precision: nat,
                                            round: (real, nat) -> real)
    requires round(start, precision) == start
    ensures var p, q := LinspaceWithPrecisionSpec(start, end, length, precision, round),
                        LinspaceSpec(start, end, length);
      p.Panic? == q.Panic? &&
      (p.Ok? ==> |p.value| == |q.value| &&
                 forall i :: 0 <= i < |p.value| ==> p.value[i] == round(q.value[i], precision))
  {
    if length > 0 {
      var p, q := LinspaceWithPrecisionSpec(start, end, length, precision, round).value,
                  LinspaceSpec(start, end, length).value;
      forall i | 0 <= i < length
        ensures p[i] == round(q[i], precision)
      {
        if 0 < i < length - 1 {
          assert round(start, precision) + Step(start, end, length) * i as real == q[i];
        }
      }
    }
  }

  /**
   * Whatever `start` is, linspace_with_precision panics exactly when linspace
   * does, has its length, and its endpoints are linspace's endpoints rounded.
   */
  lemma LinspaceWithPrecisionShape(start: real, end: real, length: nat, precision: nat,
                                   round: (real, nat) -> real)
    ensures var p, q := LinspaceWithPrecisionSpec(start, end, length, precision, round),
                        LinspaceSpec(start, end, length);
      p.Panic? == q.Panic? &&
      (p.Ok? ==> |p.value| == |q.value| == length &&
                 p.value[length - 1] == round(q.value[length - 1], precision) &&
                 (length > 1 ==> p.value[0] == round(q.value[0], precision)))
  {
    if length > 0 {
      var p, q := LinspaceWithPrecisionSpec(start, end, length, precision, round).value,
                  LinspaceSpec(start, end, length).value;
      assert p[length - 1] == round(end, precision) && q[length - 1] == end;
      if length > 1 {
        assert p[0] == round(start, precision) && q[0] == start;
      }
    }
  }

  // =====================================================================
  // logspace
  // =====================================================================

  /** What logspace computes: `base` raised to each of `length` evenly spaced exponents. */
  function LogspaceSpec(start: real, end: real, length: nat, base: real,
                        pow: (real, real) -> real): Result<seq<real>>
  {
    if end < start then Panic(EndBeforeStart)
    else Ok(seq(length, i => PowerPoint(start, Step(start, end, length), base, pow, i)))
  }

  /** Element `i` of logspace: `base` raised to the exponent `start + h * i`. */
  function PowerPoint(start: real, h: real, base: real, pow: (real, real) -> real, i: int): real
  {
    pow(base, start + h * i as real)
  }

  /** NumPy-like `logspace(start, end, length, base)`, filled index by index. */
  method Logspace(start: real, end: real, length: nat, base: real,
                  pow: (real, real) -> real) returns (r: Result<seq<real>>)
    ensures r == LogspaceSpec(start, end, length, base, pow)
  {
    if end < start {
      return Panic(EndBeforeStart);
    }
    var step := if length > 1 then (end - start) / (length as real - 1.0) else 0.0;
    ghost var w := LogspaceSpec(start, end, length, base, pow).value;
    assert step == Step(start, end, length);
    var v := seq(length, _ => 0.0);
    for i := 0 to length
      invariant |v| == length
      invariant forall k :: 0 <= k < i ==> v[k] == w[k]
    {
      v := v[i := PowerPoint(start, step, base, pow, i)];
    }
    assert v == w;
    return Ok(v);
  }

  /**
   * With at least two elements, the exponents of logspace are exactly the
   * elements of linspace over the same range: the first power is
   * `base^start` and the last `base^end`.
   */
  lemma LogspaceOfLinspace(start: real, end: real, length: nat, base: real,
                           pow: (real, real) -> real)
    requires end >= start && length >= 2
    ensures LogspaceSpec(start, end, length, base, pow).Ok?
    ensures var v, e := LogspaceSpec(start, end, length, base, pow).value,
                        LinspaceSpec(start, end, length).value;
      |v| == |e| == length &&
      (forall i :: 0 <= i < length ==> v[i] == pow(base, e[i])) &&
      v[0] == pow(base, start) && v[length - 1] == pow(base, end)
  {
    LinspaceProgression(start, end, length);
    var h := Step(start, end, length);
    var v, e := LogspaceSpec(start, end, length, base, pow).value,
                LinspaceSpec(start, end, length).value;
    forall i | 0 <= i < length
      ensures v[i] == pow(base, e[i])
    {
      assert e[i] == start + h * i as real;
    }
    assert v[length - 1] == pow(base, e[length - 1]);
  }

  /**
   * The short cases: length 0 gives the empty vector (no panic, unlike
   * linspace), and length 1 gives `base^start` (where linspace gives `end`).
   */
  lemma LogspaceShort(start: real, end: real, base: real, pow: (real, real) -> real)
    requires end >= start
    ensures LogspaceSpec(start, end, 0, base, pow) == Ok([])
    ensures LogspaceSpec(start, end, 1, base, pow) == Ok([pow(base, start)])
  {
    assert LogspaceSpec(start, end, 0, base, pow).value == [];
    assert Step(start, end, 1) == 0.0;
    assert LogspaceSpec(start, end, 1, base, pow).value[0] == pow(base, start + 0.0 * 0 as real);
    assert LogspaceSpec(start, end, 1, base, pow).value == [pow(base, start)];
  }

  /** The documented calls: `logspace(0, 10, 11, 2)` and `logspace(0, 0, 1, 10)`. */
  lemma LogspaceExamples(pow: (real, real) -> real)
    ensures LogspaceSpec(0.0, 10.0, 11, 2.0, pow) == Ok(seq(11, i => pow(2.0, i as real)))
    ensures LogspaceSpec(0.0, 0.0, 1, 10.0, pow) == Ok([pow(10.0, 0.0)])
  {
    assert Step(0.0, 10.0, 11) == 1.0;
    var v := LogspaceSpec(0.0, 10.0, 11, 2.0, pow).value;
    forall i | 0 <= i < 11
      ensures v[i] == pow(2.0, i as real)
    {
      assert 0.0 + 1.0 * i as real == i as real;
    }
    assert v == seq(11, i => pow(2.0, i as real));
    assert LogspaceSpec(0.0, 0.0, 1, 10.0, pow).value == [pow(10.0, 0.0)];
  }

  // =====================================================================
  // concat and cat
  // =====================================================================

  /** `concat(v1, v2)`: `v1` followed by `v2`; the inputs are values and stay as they were. */
  function Concat<T>(v1: seq<T>, v2: seq<T>): (v: seq<T>)
    ensures |v| == |v1| + |v2|
    ensures v[..|v1|] == v1 && v[|v1|..] == v2
  {
    v1 + v2
  }

  /** `cat(val, vec)`: `val` in front of `vec`. */
  function Cat<T>(val: T, vec: seq<T>): (v: seq<T>)
    ensures |v| == |vec| + 1 && v[0] == val && v[1..] == vec
  {
    [val] + vec
  }
}
