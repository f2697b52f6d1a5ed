# Peroxide `non_macro` constructors in Dafny

This project models the plain-function constructors of Peroxide's
`src/util/non_macro.rs`. These are the R-, MATLAB- and NumPy-style
builders behind the crate's constructor macros:

- the vector builders `seq`, `seq_with_precision`, `linspace`,
  `linspace_with_precision` and `logspace`;
- the vector joins `concat` and `cat`;
- the matrix builders `zeros`, `zeros_shape`, `eye` and `eye_shape`;
- the matrix binders `cbind` and `rbind`.

Three modules:

- `Matrices` (`matrix.dfy`): the dense matrix record these functions
  produce and consume. It holds a flat `data` vector, `row` and `col`
  counts, and a `Shape` (`Row` or `Col` major). It also defines:
  - entry lookup `At`, the `m[(i, j)]` operator;
  - entry assignment `Set`, the `m[(i, j)] = x` operator;
  - the layout change `ChangeShape`.
- `NonMacro` (`non_macro.dfy`): the vector builders and joins.
- `NonMacroMatrix` (`non_macro_matrix.dfy`): the matrix builders and
  binders.

Conventions:

- `f64` is idealised as `real`.
- The two floating-point library calls are function parameters, so
  nothing is assumed about them: `powf` becomes `pow: (real, real) -> real`
  and `round_with_precision` becomes `round: (real, nat) -> real`.
- A Rust panic is a `Panic(failure)` value of `Result`. The panics are:
  - a failed `assert!(e >= s)` → `EndBeforeStart`;
  - `v[0]` on an empty vector → `IndexOutOfBounds`;
  - a failed `assert_eq!` in `cbind` → `RowCountMismatch`, in `rbind` →
    `ColCountMismatch`;
  - the `usize` overflow of `factor.floor() as usize + 1` →
    `LengthOverflow`.
- Each vector function that fills its result in a loop is a method with
  that loop. The method is proved equal to a specification function
  (`SeqSpec`, `LinspaceSpec`, …), and the lemmas state the promised
  properties about those functions.
- `eye` and `eye_shape` are methods with the diagonal loop. Their
  contract is `IsIdentity`: 1 on the diagonal, 0 elsewhere, in the
  requested layout.

Behaviour the model keeps from the code:

- `seq`:
  - the length is `floor((e - s) / step) as usize + 1`, and the cast
    saturates;
  - a negative step over a non-empty range, or `e == s`, gives the single
    element `[s]`;
  - a zero step over a non-empty range makes the factor `+inf`, which
    saturates to `usize::MAX`, so the `+ 1` overflows.
- `linspace`:
  - length 0 panics on `v[0]`;
  - length 1 gives `[end]`, because the write to `v[length - 1]`
    overwrites `v[0]`.
- `logspace`:
  - length 0 gives `[]`;
  - length 1 gives `[base^start]`.
- `linspace_with_precision` computes its interior from the already
  rounded `v[0]`, with the step taken from the unrounded endpoints. With
  at most two elements there is no interior, so it always equals "round
  every element of `linspace`". With three or more elements that equality
  is guaranteed only when `start` is already at the requested precision.

## Model

| member | source | states |
|---|---|---|
| `NonMacro.FloorToUsize` | src/util/non_macro.rs:37 | `x.floor() as usize` saturates: 0 for negative `x`, `usize::MAX` from `usize::MAX` upward, and in between `n <= x < n + 1` |
| `NonMacro.Seq` | src/util/non_macro.rs:24-44 | The loop returns exactly `SeqSpec`. That is `EndBeforeStart` when `end < start`, and `LengthOverflow` when the floor of the factor saturates at `usize::MAX`. Otherwise it is `floor((end - start) / step) as usize + 1` elements, the cast sending a negative floor (or the NaN of `0 / 0`) to 0, element `i` being `start + step * i`. |
| `NonMacro.SeqPanics` | src/util/non_macro.rs:34-37 | seq panics with `EndBeforeStart` exactly when `end < start`. Otherwise it panics, with `LengthOverflow`, exactly when the step is 0 over a non-empty range or the range spans at least `usize::MAX` steps. |
| `NonMacro.SeqCoversRange` | src/util/non_macro.rs:36-42 | With a positive step: the first element is `start`; every element lies in `[start, end]`; one more step would pass `end`. |
| `NonMacro.SeqSingleElement` | src/util/non_macro.rs:36-38 | A negative step, or `end == start`, gives exactly `[start]` (the cast sends the negative factor or NaN to 0) |
| `NonMacro.SeqExamples` | src/util/non_macro.rs:18-22 | `seq(1, 10, 2) == [1, 3, 5, 7, 9]` and `seq(1, 1, 1) == [1]` |
| `NonMacro.SeqWithPrecision` | src/util/non_macro.rs:285-305 | The loop returns exactly `SeqWithPrecisionSpec`: the same panics as seq, otherwise element `i` is `round(start + step * i, precision)` |
| `NonMacro.SeqWithPrecisionRoundsSeq` | src/util/non_macro.rs:295-303 | seq_with_precision panics exactly when seq does, with the same failure. Otherwise it has seq's length, and each element is seq's element rounded. |
| `NonMacro.Step` | src/util/non_macro.rs:124-128 | For more than one element, the spacing times `length - 1` is exactly `end - start`; for at most one element it is 0 |
| `NonMacro.Linspace` | src/util/non_macro.rs:119-138 | The in-place fill returns exactly `LinspaceSpec`. That is `IndexOutOfBounds` for length 0. Otherwise it is `end` at the last index, `start` at index 0 when there are at least two elements, and `v[0] + step * i` in between. |
| `NonMacro.LinspaceProgression` | src/util/non_macro.rs:124-136 | With at least two elements, linspace is the arithmetic progression with first element `start` and last element exactly `end` |
| `NonMacro.LinspaceSorted` | src/util/non_macro.rs:124-136 | With `start <= end`, linspace never decreases |
| `NonMacro.LinspaceShort` | src/util/non_macro.rs:130-132 | Length 0 panics on `v[0]`; length 1 gives `[end]` |
| `NonMacro.LinspaceIsSeq` | src/util/non_macro.rs:119-138 | For a positive step `h` and any whole number `k < usize::MAX` of steps, `linspace(start, start + k*h, k + 1)` equals `seq(start, start + k*h, h)` (for `k = 0` both are `[start]`) |
| `NonMacro.LinspaceExample` | src/util/non_macro.rs:114-116 | `linspace(1, 10, 10) == seq(1, 10, 1)`, and its length is 10 |
| `NonMacro.LinspaceWithPrecision` | src/util/non_macro.rs:322-341 | The in-place fill returns exactly `LinspaceWithPrecisionSpec`. The endpoints are rounded; each interior slot rounds `round(start) + step * i`. |
| `NonMacro.LinspaceWithPrecisionRoundsLinspace` | src/util/non_macro.rs:333-339 | When `start` is already rounded, linspace_with_precision panics exactly when linspace does. Otherwise it is linspace with every element rounded. |
| `NonMacro.LinspaceWithPrecisionShape` | src/util/non_macro.rs:333-339 | For any `start`, linspace_with_precision panics exactly when linspace does. Otherwise it has linspace's length, its last element is linspace's last element rounded, and with more than one element its first is linspace's first rounded. |
| `NonMacro.Logspace` | src/util/non_macro.rs:156-180 | The loop returns exactly `LogspaceSpec`: `EndBeforeStart` when `end < start`, otherwise element `i` is `pow(base, start + step * i)` |
| `NonMacro.LogspaceOfLinspace` | src/util/non_macro.rs:168-178 | With at least two elements, the exponents of logspace are the elements of linspace. The first power is `base^start` and the last is `base^end`. |
| `NonMacro.LogspaceShort` | src/util/non_macro.rs:166-178 | Length 0 gives `[]` (no panic); length 1 gives `[base^start]` |
| `NonMacro.LogspaceExamples` | src/util/non_macro.rs:148-153 | `logspace(0, 10, 11, 2)` is `2^i` for `i = 0..10`; `logspace(0, 0, 1, 10)` is `[10^0]` |
| `NonMacro.Concat` | src/util/non_macro.rs:65-70 | The result is `v1` followed by `v2`: both inputs are recovered as its prefix and suffix |
| `NonMacro.Cat` | src/util/non_macro.rs:72-77 | The result is `val` followed by `vec`: head `val`, tail `vec` |
| `Matrices.Set` | src/util/non_macro.rs:91-93 | `m[(i, j)] = x` sets entry (i, j) to `x`. Every other entry, the dimensions and the layout are unchanged. |
| `Matrices.ChangeShape` | src/util/non_macro.rs:198-206 | `change_shape` gives the same matrix, entry by entry, in the other layout |
| `Matrices.ChangeShapeTwice` | src/util/non_macro.rs:198-206 | Changing the layout twice gives back the original matrix |
| `NonMacroMatrix.Zeros` | src/util/non_macro.rs:56-58 | An `r`-by-`c` Row-major matrix whose every entry is 0 |
| `NonMacroMatrix.ZerosShape` | src/util/non_macro.rs:61-63 | An `r`-by-`c` matrix in the given layout whose every entry is 0 |
| `NonMacroMatrix.ZerosExample` | src/util/non_macro.rs:53-54 | `zeros(2, 2)` is the Row matrix over `[0, 0, 0, 0]` with 2 rows and 2 columns |
| `NonMacroMatrix.Eye` | src/util/non_macro.rs:89-95 | The diagonal writes over `zeros(n, n)` produce the `n`-by-`n` identity (1 on the diagonal, 0 elsewhere) in Row layout |
| `NonMacroMatrix.EyeShape` | src/util/non_macro.rs:98-104 | The same writes over `zeros_shape(n, n, shape)` produce the identity in the given layout |
| `NonMacroMatrix.IdentityStorage` | src/util/non_macro.rs:89-104 | An identity matrix has the same storage in either layout: a 1 at every `(n + 1)`-th position |
| `NonMacroMatrix.CBind` | src/util/non_macro.rs:197-216 | Panics with `RowCountMismatch` exactly when the row counts differ. Otherwise the result is Col-major, has `m1.col + m2.col` columns, and stores `m1`'s column-major data followed by `m2`'s. |
| `NonMacroMatrix.CBindEntries` | src/util/non_macro.rs:197-216 | Entry (i, j) of cbind is `m1`'s entry (i, j) for `j < m1.col`, and `m2`'s entry (i, j - m1.col) after that |
| `NonMacroMatrix.CBindExample` | src/util/non_macro.rs:191-194 | cbind of the 2-by-2 Col matrices over 1..4 and 5..8 is the 2-by-4 Col matrix over 1..8 |
| `NonMacroMatrix.RBind` | src/util/non_macro.rs:233-252 | Panics with `ColCountMismatch` exactly when the column counts differ. Otherwise the result is Row-major, has `m1.row + m2.row` rows, and stores `m1`'s row-major data followed by `m2`'s. |
| `NonMacroMatrix.RBindEntries` | src/util/non_macro.rs:233-252 | Entry (i, j) of rbind is `m1`'s entry (i, j) for `i < m1.row`, and `m2`'s entry (i - m1.row, j) below that |
| `NonMacroMatrix.RBindExample` | src/util/non_macro.rs:227-230 | rbind of the 2-by-2 Row matrices over 1..4 and 5..8 is the 4-by-2 Row matrix over 1..8 |

## Left out

- `rand` (src/util/non_macro.rs:259-268) draws from the thread-local random number generator. It is left out.
- IEEE-754 rounding is not modelled, because `real` arithmetic is exact. So the documentation examples that show rounding artefacts (`seq(0, 1e-2, 1e-3)[9] != 0.009` and its linspace twin, src/util/non_macro.rs:278-279 and 315-316) are not reproduced. Infinite and NaN inputs are not modelled either. The only non-finite factor modelled is the one a zero step produces in seq.
- `powf` and `round_with_precision` are arbitrary function parameters. The model proves nothing about their numerical behaviour, for example that `2^3 == 8`.
- The `Into<f64>` conversions of the generic arguments are not modelled; the inputs are taken as reals. Neither is the conversion `length as f64`.
- src/structure/matrix.rs is not part of this model. The `matrix` constructor, the index operators and `change_shape` are given the meaning their use here needs:
  - storage length `row * col`;
  - Row-major offset `i * col + j` and Col-major offset `j * row + i`;
  - `change_shape` rewrites the storage into the other layout.
- `LengthOverflow` models a build with overflow checks, where `usize::MAX + 1` panics. A release build wraps to a length of 0 instead, and that is not modelled.
- `USIZE_MAX` is `2^64 - 1`, so the model assumes a 64-bit target.
- Reals have no signed zero. A step of `-0.0` therefore behaves like a zero step in the model (`LengthOverflow` over a non-empty range), whereas in Rust `(e - s) / -0.0` is `-inf` and seq returns `[s]`.
- Zeros: the product `r * c` (src/util/non_macro.rs:57, 62) is not checked against `usize::MAX`; the model multiplies unbounded naturals, and so does eye through `n * n`.
- CBind: the running column count `c += temp2.col` (src/util/non_macro.rs:214) never overflows in the model, so cbind has no panic when the summed columns pass `usize::MAX`.
- RBind: the running row count `r += temp2.row` (src/util/non_macro.rs:250) never overflows in the model, so rbind has no panic when the summed rows pass `usize::MAX`.
- Allocation failure is not modelled: `vec![0f64; l]` or `r * c` beyond what memory or `isize::MAX` bytes allow. Lengths and dimensions are otherwise unbounded `nat`s.
- src/traits/math.rs (trait declarations and one-line `f64` helpers) and examples/dataframe.rs (a printing demo) hold no constructor logic and are not modelled.
