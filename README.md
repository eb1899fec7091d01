# Slit planner: a Dafny model of the slitting pipeline

The slit planner takes the stock coils and the customer orders, both read as
`(width, length)` rows. It decides which order widths to cut from each coil,
then puts each coil's cuts in ascending order to reduce shear adjustments.
This project models that pipeline and proves what it does and does not
guarantee.

- `linear_program.dfy` (module `LinearProgram`) describes the solver interface.
  This is scipy's `linprog` with the HiGHS method. A problem minimises `c . x`
  subject to `<=` rows and box bounds. The solver is not modelled. It is a
  function value `solver: Problem -> Outcome`, and the planner's methods require
  `Conforms(solver)`: on success, `x` has one entry per variable, every entry is
  within its bound, and `fun` is the objective at `x`. Nothing more is assumed.
  Optimality and the `<=` row are not assumed.
- `sorting.dfy` (module `Sorting`) models Python's `sorted` on a list of widths.
  It is written as an insertion sort. The proofs describe its result without
  reference to the algorithm: it is the only non-decreasing rearrangement of
  its input.
- `slitting.dfy` (module `Slitting`) models `knapsack`,
  `optimize_slitting_patterns`, `minimize_shear_adjustments` and the two calls
  that chain them. For every coil, the full order list becomes a knapsack: the
  weights are the order widths, the values are the order lengths, and the
  capacity is the coil width. It is solved as an LP relaxation with every
  variable in [0, 1]. An order is cut when its entry is above 0.5. The two
  loops are methods with loop invariants. The comprehensions and `sorted` are
  functions.

The code does not guarantee that a pattern fits its coil. Rounding a
fractional LP answer at 0.5 can push the total width past the coil width.
`RoundedOptimumCanOverfillCoil` gives an optimal LP vertex where this happens:
two orders 60 wide on a coil 100 wide give 120. The capacity bound is proved
only under an explicit assumption that the answer is exactly 0/1
(`ExactSelectionFitsCoil`).

The model follows the code, not an idealised design of it:

- An exact dynamic-programming solver with a tie-break rule would respect the
  capacity. The code uses the 0.5-rounded relaxation.
- Per-coil failure slots would keep the other coils' patterns. In the code, the
  first failed solve raises `ValueError` and the whole batch is lost.
- Every coil is solved against the full, undepleted order list, so the same
  order can be cut from several coils.
- An empty order list should give an empty pattern for every coil. The code
  passes an empty objective vector `c` to `linprog` (src/app.py:63-70). The
  model does not capture what `linprog` does with it. SciPy's input validation
  for `linprog` requires a non-empty one-dimensional `c`. If it raises
  `ValueError` there, the whole batch is lost instead of giving empty patterns.
  The model's solver is abstract: for an empty order list it may succeed, which
  gives empty patterns, or fail, which gives `Err`.
- A coil of width 0 should give an empty pattern. The model proves this
  (`ZeroCoilCutsNothing`) only for an answer that satisfies the capacity row,
  because the solver interface does not promise that row. `ExactSelectionFitsCoil`
  makes the same explicit assumption.

## Model

| member | source | states |
|---|---|---|
| `Slitting.FormulationIsKnapsackRelaxation` | src/app.py:62-70 | The program `knapsack` builds (`Formulate`: `c`, `A_ub`, `b_ub` and `bounds` of lines 63-67) is the LP relaxation of the 0/1 knapsack. A point is feasible exactly when it has one entry per order, every entry is in [0, 1], and the weighted width is at most the capacity. The objective is the negated total value. |
| `Slitting.Knapsack` | src/app.py:62-74 | It fails with "Optimization failed" exactly when the solver reports failure. On success, it returns the solver's own vector `x` and the negated solver objective `-fun`. That vector has one entry per order, each in [0, 1], and the returned value equals the selection's total length. |
| `Slitting.SelectCuts` | src/app.py:89 | The pattern has no more cuts than there are orders. |
| `Slitting.ChosenIndicesExact` | src/app.py:89 | The indices that are kept are ascending and in range. An index is kept if and only if its selection entry is above 0.5. |
| `Slitting.SelectCutsIsThresholdedSubsequence` | src/app.py:89 | The pattern is the subsequence of the order widths at exactly the indices whose entry is above 0.5, in index order. |
| `Slitting.SelectCutsDrawnFromOrders` | src/app.py:89 | Each width appears in a pattern at most as often as it appears among the orders. |
| `Slitting.NothingAboveHalfCutsNothing` | src/app.py:89 | When no selection entry is above 0.5, the pattern is empty. |
| `Slitting.ZeroOneSelectionWidth` | src/app.py:89 | For a 0/1 selection, the pattern's total width equals the weighted width sum of the LP row. |
| `Slitting.ExactSelectionFitsCoil` | src/app.py:84-89 | If the solver's answer is exactly 0/1 and feasible, the pattern fits within the coil width. |
| `Slitting.ZeroCoilCutsNothing` | src/app.py:62-89 | For a coil of width 0 and orders of positive width, any answer satisfying the program's bounds and capacity row cuts nothing: the pattern is empty. |
| `Slitting.RoundedOptimumCanOverfillCoil` | src/app.py:81-89 | Some optimal LP answer makes the rounded pattern wider than its coil. Two 60-wide orders on a 100-wide coil are cut at 120. |
| `Slitting.EveryOptimumOverfillsCoil` | src/app.py:81-89 | For that instance, every optimal LP answer has both entries above 0.5, so every optimum the solver may report is rounded to 60, 60 and overfills the 100-wide coil. |
| `Slitting.ScenarioOptimumIsUnique` | src/app.py:62-85 | Take orders (30,5), (40,3), (50,6), (20,2) on a 100-wide coil. The only LP optimum is (1, 0, 1, 1). |
| `Slitting.ScenarioPlan` | src/app.py:88-99 | For that instance, any optimal answer gives the pattern 30, 50, 20, which is adjusted to 20, 30, 50. |
| `Slitting.ScenarioBatch` | src/app.py:77-102 | The same four orders on a coil of width 0 and a coil of width 100. For any feasible answer on the first coil and any optimum on the second, the first pattern is empty and stays empty after sorting. The second is cut 30, 50, 20 and adjusted to 20, 30, 50. |
| `Slitting.CoilProblemsShareOrders` | src/app.py:79-85 | `CoilProblem` is the knapsack built for one coil from the full order list. The knapsacks of two coils differ only in the capacity bound. Orders are never used up by an earlier coil. |
| `Slitting.OptimizeSlittingPatterns` | src/app.py:77-92 | It fails exactly when one coil's solve fails, and then no patterns are returned. Otherwise there is one pattern per coil, in coil order. Each pattern carries its coil unchanged, and its cuts are the 0.5-thresholded selection from the full order list. That list's widths and lengths (`Widths`, `Lengths`, lines 81-82) are the weights and values of every coil's knapsack. |
| `Slitting.MinimizeShearAdjustments` | src/app.py:95-102 | There is one adjusted pattern per input pattern, in the same order, with the same coil. Its cuts are non-decreasing and have the same multiset of widths. |
| `Slitting.ShearAdjustmentUnique` | src/app.py:95-102 | A plan has only one shear adjustment. Each of its cut lists is `Sort` of the input list. |
| `Slitting.ShearAdjustmentIdempotent` | src/app.py:95-102 | Adjusting an adjusted plan again returns it unchanged. |
| `Slitting.PlanSlitting` | src/app.py:133-134 | The run fails exactly when some coil's solve fails. Otherwise it gives one raw pattern and one adjusted pattern per coil, in coil order, with the coil kept. Each raw pattern is the 0.5-thresholded selection of the solver's answer for that coil. Each adjusted list is `Sort` of its raw list. An adjusted list has no more cuts than there are orders and uses no width more often than the orders do. |
| `Sorting.Sort` | src/app.py:99 | The result is non-decreasing and has the same multiset of elements as the input. |
| `Sorting.SortedPermutationUnique` | src/app.py:99 | Two non-decreasing sequences with the same elements are equal. |
| `Sorting.SortCharacterised` | src/app.py:99 | `t == Sort(s)` holds if and only if `t` is non-decreasing and has the same multiset of elements as `s`. |
| `Sorting.SortKeepsSorted` | src/app.py:99 | A list that is already ascending is returned unchanged. |
| `Sorting.SortIdempotent` | src/app.py:99 | Sorting twice gives the same result as sorting once. |

## Left out

- The Dash page layout, the result tables and `format_pattern` (src/app.py:21-59, 136-150) are presentation only.
- Decoding the uploads (src/app.py:114-131) is left out. This covers the `PreventUpdate` guards, base64, `pandas.read_excel` and `itertuples`. It is I/O and foreign-library parsing. The model takes typed `Coil` and `Order` records, so a row of the wrong shape or a non-numeric cell is not modelled. In the code, a coil row without exactly two columns fails at the unpacking on line 80. An order row with fewer than two columns fails at the indexing on lines 81-82. An order row with more columns is accepted, because only its first two cells are read. A non-numeric coil length is unpacked on line 80 and never used, so it passes.
- The catch-all `except` that turns an error into a status message (src/app.py:154-155) is left out. The model returns `Err("Optimization failed")` and stops the run there.
- Exceptions other than a failed solve are not modelled. A non-numeric order length fails at the negation on src/app.py:64. A blank length is read as NaN, which passes the negation and then fails inside `linprog`. A non-numeric or blank width or coil width also fails inside `linprog` on src/app.py:70. Each of these also aborts the batch, with its own message rather than "Optimization failed". In the model the solver cannot raise, so `Err` always carries "Optimization failed".
- The download route and the server start (src/app.py:158-164) are I/O.
- The inside of `linprog` and HiGHS is left out. Only the guarantees in `Conforms` are assumed. The solver is a function of the problem, so the same problem always gets the same answer.
- Floating-point arithmetic is not modelled. Widths, lengths, selection entries and the 0.5 comparison use exact reals.
- Python's `sorted` algorithm (Timsort) is not modelled, only its result. NaN widths have no counterpart in `real`.
- `Slitting.OptimizeSlittingPatterns`: does not state that a pattern fits its coil or that its total length is optimal. The code guarantees neither, because the relaxation is rounded at 0.5.
- `Slitting.Knapsack`: requires as many values as weights. Both lists are built from the same order list, so this always holds.
