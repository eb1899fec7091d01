/**
 The slitting planner: for each coil, a 0/1 knapsack over the full order list
 (order widths as weights, order lengths as values, the coil width as capacity)
 is relaxed to a linear program, handed to the solver, and rounded at 0.5; the
 chosen widths are then put in ascending order to reduce shear adjustments.
 */
module Slitting {
  import opened LinearProgram
  import opened Sorting

  /** A stock coil as read from the inventory sheet: `(width, length)`. */
  datatype Coil = Coil(width: real, length: real)

  /** A customer order as read from the order sheet: `(width, length)`. */
  datatype Order = Order(width: real, length: real)

  /** A coil with the widths to be cut from it. */
  datatype Pattern = Pattern(coil: Coil, cuts: seq<real>)

  /** Knapsack answer: the (relaxed) total value and the selection vector. */
  datatype Selection = Selection(total: real, x: seq<real>)

  /** A value, or the message of the exception raised instead. */
  datatype Result<T> = Ok(value: T) | Err(error: string)

  const OptimizationFailed: string := "Optimization failed"

  /** Selection entries strictly above this are cut. */
  const Half: real := 0.5

  function Widths(orders: seq<Order>): (w: seq<real>)
    ensures |w| == |orders|
  {
    seq(|orders|, i requires 0 <= i < |orders| => orders[i].width)
  }

  function Lengths(orders: seq<Order>): (v: seq<real>)
    ensures |v| == |orders|
  {
    seq(|orders|, i requires 0 <= i < |orders| => orders[i].length)
  }

  // ---------------------------------------------------------------- knapsack

  /** The linear program `knapsack` builds: objective the negated values, a
      single `<=` row of weights against the capacity, every variable in [0, 1]. */
  function Formulate(weights: seq<real>, values: seq<real>, capacity: real): Problem
    requires |weights| == |values|
  {
    Problem(
      seq(|values|, i requires 0 <= i < |values| => -values[i]),
      [weights],
      [capacity],
      seq(|weights|, _ => Bound(0.0, 1.0)))
  }

  /** The formulated program is the LP relaxation of the 0/1 knapsack: its
      feasible points are the fractional selections within capacity, and its
      objective is the negated total value. */
  lemma FormulationIsKnapsackRelaxation(weights: seq<real>, values: seq<real>, capacity: real, x: seq<real>)
    requires |weights| == |values|
    ensures var p := Formulate(weights, values, capacity);
      Feasible(p, x) <==>
        && |x| == |weights|
        && (forall i :: 0 <= i < |x| ==> 0.0 <= x[i] <= 1.0)
        && Dot(weights, x) <= capacity
    ensures |x| == |weights| ==> Objective(Formulate(weights, values, capacity), x) == -Dot(values, x)
  {
    var p := Formulate(weights, values, capacity);
    if |x| == |weights| {
      DotNegated(values, p.c, x);
      UnitBounds(p.bounds, x);
      OneRow(p.aUb, p.bUb, weights, capacity, x);
    }
  }

  lemma OneRow(aUb: seq<seq<real>>, bUb: seq<real>, row: seq<real>, bound: real, x: seq<real>)
    requires aUb == [row] && bUb == [bound] && |row| == |x|
    ensures (forall r :: 0 <= r < |aUb| ==> |aUb[r]| == |x| && Dot(aUb[r], x) <= bUb[r])
      <==> Dot(row, x) <= bound
  {
    assert aUb[0] == row && bUb[0] == bound;
  }

  lemma UnitBounds(bounds: seq<Bound>, x: seq<real>)
    requires |bounds| == |x|
    requires forall i :: 0 <= i < |bounds| ==> bounds[i] == Bound(0.0, 1.0)
    ensures WithinBounds(bounds, x) <==> forall i :: 0 <= i < |x| ==> 0.0 <= x[i] <= 1.0
  {
  }

  /** Solves the relaxed knapsack with `solver`; a failed solve raises
      `ValueError("Optimization failed")`. */
  function Knapsack(weights: seq<real>, values: seq<real>, capacity: real,
                    solver: Problem -> Outcome): (r: Result<Selection>)
    requires |weights| == |values|
    requires Conforms(solver)
    ensures r.Err? <==> !solver(Formulate(weights, values, capacity)).success
    ensures r.Err? ==> r.error == OptimizationFailed
    ensures r.Ok? ==>
      && r.value.x == solver(Formulate(weights, values, capacity)).x
      && r.value.total == -solver(Formulate(weights, values, capacity)).fun
    ensures r.Ok? ==>
      && |r.value.x| == |weights|
      && (forall i :: 0 <= i < |weights| ==> 0.0 <= r.value.x[i] <= 1.0)
      && r.value.total == Dot(values, r.value.x)
  {
    var p := Formulate(weights, values, capacity);
    var o := solver(p);
    assert Answers(p, o);
    if o.success then
      DotNegated(values, p.c, o.x);
      Ok(Selection(-o.fun, o.x))
    else
      Err(OptimizationFailed)
  }

  // ------------------------------------------------------------ thresholding

  /** The widths whose selection value is above one half, in order. */
  function SelectCuts(widths: seq<real>, x: seq<real>): (cuts: seq<real>)
    requires |x| == |widths|
    ensures |cuts| <= |widths|
  {
    if x == [] then []
    else
      var n := |x| - 1;
      SelectCuts(widths[..n], x[..n]) + if x[n] > Half then [widths[n]] else []
  }

  /** Every width is cut at most as often as it is ordered. */
  lemma {:induction false} SelectCutsDrawnFromOrders(widths: seq<real>, x: seq<real>)
    requires |x| == |widths|
    ensures multiset(SelectCuts(widths, x)) <= multiset(widths)
  {
    if x != [] {
      var n := |x| - 1;
      SelectCutsDrawnFromOrders(widths[..n], x[..n]);
      assert widths == widths[..n] + [widths[n]];
    }
  }

  /** The indices whose selection value is above one half, ascending. */
  function ChosenIndices(x: seq<real>): seq<nat>
  {
    if x == [] then []
    else
      var n := |x| - 1;
      ChosenIndices(x[..n]) + if x[n] > Half then [n] else []
  }

  /** The chosen indices are ascending and are exactly those above one half. */
  lemma {:induction false} ChosenIndicesExact(x: seq<real>)
    ensures var idx := ChosenIndices(x);
      && (forall j, k :: 0 <= j < k < |idx| ==> idx[j] < idx[k])
      && (forall j :: 0 <= j < |idx| ==> idx[j] < |x|)
      && (forall i :: 0 <= i < |x| ==> (x[i] > Half <==> i in idx))
  {
    if x != [] {
      var n := |x| - 1;
      ChosenIndicesExact(x[..n]);
      var idx := ChosenIndices(x);
      forall i | 0 <= i < n
        ensures x[i] > Half <==> i in idx
      {
        assert x[..n][i] == x[i];
      }
    }
  }

  /** The pattern is the subsequence of the widths taken at the chosen
      indices: the widths whose selection entry exceeds one half, in the
      order of the orders. */
  lemma {:induction false} SelectCutsIsThresholdedSubsequence(widths: seq<real>, x: seq<real>)
    requires |x| == |widths|
    ensures var cuts, idx := SelectCuts(widths, x), ChosenIndices(x);
      && |cuts| == |idx|
      && (forall j, k :: 0 <= j < k < |idx| ==> idx[j] < idx[k])
      && (forall j :: 0 <= j < |idx| ==> idx[j] < |widths| && cuts[j] == widths[idx[j]])
      && (forall i :: 0 <= i < |x| ==> (x[i] > Half <==> i in idx))
  {
    ChosenIndicesExact(x);
    if x != [] {
      var n := |x| - 1;
      SelectCutsIsThresholdedSubsequence(widths[..n], x[..n]);
      ChosenIndicesExact(x[..n]);
    }
  }

  // ---------------------------------------------------------------- capacity

  function Sum(s: seq<real>): real
  {
    if s == [] then 0.0 else Sum(s[..|s| - 1]) + s[|s| - 1]
  }

  lemma SumAppend(s: seq<real>, v: real)
    ensures Sum(s + [v]) == Sum(s) + v
  {
    assert (s + [v])[..|s|] == s;
  }

  /** With a 0/1 selection the pattern's total width equals the weighted sum. */
  lemma {:induction false} ZeroOneSelectionWidth(widths: seq<real>, x: seq<real>)
    requires |x| == |widths|
    requires forall i :: 0 <= i < |x| ==> x[i] == 0.0 || x[i] == 1.0
    ensures Sum(SelectCuts(widths, x)) == Dot(widths, x)
  {
    if x != [] {
      var n := |x| - 1;
      var rest := SelectCuts(widths[..n], x[..n]);
      ZeroOneSelectionWidth(widths[..n], x[..n]);
      assert Sum(rest) == Dot(widths[..n], x[..n]);
      if x[n] > Half {
        assert widths[n] * x[n] == widths[n] by { assert x[n] == 1.0; }
        SumAppend(rest, widths[n]);
      } else {
        assert widths[n] * x[n] == 0.0 by { assert x[n] == 0.0; }
        assert rest + [] == rest;
      }
    }
  }

  /** Only an exact 0/1 answer that satisfies the capacity row yields a
      pattern that fits the coil. */
  lemma ExactSelectionFitsCoil(orders: seq<Order>, coil: Coil, x: seq<real>)
    requires Feasible(CoilProblem(orders, coil), x)
    requires forall i :: 0 <= i < |x| ==> x[i] == 0.0 || x[i] == 1.0
    ensures Sum(SelectCuts(Widths(orders), x)) <= coil.width
  {
    FormulationIsKnapsackRelaxation(Widths(orders), Lengths(orders), coil.width, x);
    ZeroOneSelectionWidth(Widths(orders), x);
  }

  lemma ProductNonNegative(a: real, b: real)
    requires a >= 0.0 && b >= 0.0
    ensures a * b >= 0.0
  {
  }

  /** A positive factor whose product with a non-negative one is not positive
      forces that one to zero. */
  lemma ZeroFactor(a: real, b: real)
    requires a > 0.0 && b >= 0.0 && a * b <= 0.0
    ensures b == 0.0
  {
  }

  /** With non-negative factors, the inner product is at least each of its terms. */
  lemma {:induction false} DotBoundsTerms(w: seq<real>, x: seq<real>)
    requires |w| == |x|
    requires forall i :: 0 <= i < |x| ==> w[i] >= 0.0 && x[i] >= 0.0
    ensures Dot(w, x) >= 0.0
    ensures forall i :: 0 <= i < |x| ==> Dot(w, x) >= w[i] * x[i]
  {
    if x != [] {
      var n := |x| - 1;
      forall i | 0 <= i < n
        ensures w[..n][i] >= 0.0 && x[..n][i] >= 0.0
      {
        assert w[..n][i] == w[i] && x[..n][i] == x[i];
      }
      DotBoundsTerms(w[..n], x[..n]);
      ProductNonNegative(w[n], x[n]);
      forall i | 0 <= i < n
        ensures Dot(w, x) >= w[i] * x[i]
      {
        assert w[..n][i] == w[i] && x[..n][i] == x[i];
      }
    }
  }

  /** No entry above one half, no cut. */
  lemma {:induction false} NothingAboveHalfCutsNothing(widths: seq<real>, x: seq<real>)
    requires |x| == |widths|
    requires forall i :: 0 <= i < |x| ==> x[i] <= Half
    ensures SelectCuts(widths, x) == []
  {
    if x != [] {
      var n := |x| - 1;
      forall i | 0 <= i < n
        ensures x[..n][i] <= Half
      {
        assert x[..n][i] == x[i];
      }
      NothingAboveHalfCutsNothing(widths[..n], x[..n]);
    }
  }

  /** A coil of width zero: a feasible answer leaves every positive-width
      order at zero, so nothing is cut from the coil. */
  lemma ZeroCoilCutsNothing(orders: seq<Order>, coil: Coil, x: seq<real>)
    requires coil.width == 0.0
    requires forall i :: 0 <= i < |orders| ==> orders[i].width > 0.0
    requires Feasible(CoilProblem(orders, coil), x)
    ensures SelectCuts(Widths(orders), x) == []
  {
    var w := Widths(orders);
    FormulationIsKnapsackRelaxation(w, Lengths(orders), coil.width, x);
    DotBoundsTerms(w, x);
    forall i | 0 <= i < |x|
      ensures x[i] <= Half
    {
      ZeroFactor(w[i], x[i]);
    }
    NothingAboveHalfCutsNothing(w, x);
  }

  lemma DotOfTwo(a: seq<real>, b: seq<real>)
    requires |a| == |b| == 2
    ensures Dot(a, b) == a[0] * b[0] + a[1] * b[1]
  {
    assert a[..1][..0] == [] && b[..1][..0] == [];
    assert Dot(a[..1], b[..1]) == a[0] * b[0];
  }

  /** Two 60-wide orders of equal length on a 100-wide coil: the relaxation
      is minimised at (1, 2/3). */
  lemma OverfillOptimum(orders: seq<Order>, coil: Coil, x: seq<real>)
    requires orders == [Order(60.0, 1.0), Order(60.0, 1.0)]
    requires coil == Coil(100.0, 1000.0) && x == [1.0, 2.0 / 3.0]
    ensures Optimal(CoilProblem(orders, coil), x)
  {
    var p := CoilProblem(orders, coil);
    var w, v := Widths(orders), Lengths(orders);
    assert w == [60.0, 60.0] && v == [1.0, 1.0];
    DotOfTwo(w, x);
    DotOfTwo(v, x);
    FormulationIsKnapsackRelaxation(w, v, coil.width, x);
    forall y | Feasible(p, y)
      ensures Objective(p, x) <= Objective(p, y)
    {
      FormulationIsKnapsackRelaxation(w, v, coil.width, y);
      DotOfTwo(w, y);
      DotOfTwo(v, y);
    }
  }

  lemma OverfillCuts(w: seq<real>, x: seq<real>)
    requires w == [60.0, 60.0] && |x| == 2 && x[0] > Half && x[1] > Half
    ensures SelectCuts(w, x) == [60.0, 60.0]
    ensures Sum(SelectCuts(w, x)) == 120.0
  {
    assert SelectCuts(w[..1], x[..1]) == [60.0] by {
      assert w[..1][..0] == [] && x[..1][..0] == [];
    }
    SumAppend([60.0], 60.0);
    SumAppend([], 60.0);
  }

  /** Rounding an optimal vertex of the relaxation can overfill the coil:
      both entries of the optimum are above one half, so 120 is cut from a
      coil 100 wide. */
  lemma RoundedOptimumCanOverfillCoil(orders: seq<Order>, coil: Coil, x: seq<real>)
    requires orders == [Order(60.0, 1.0), Order(60.0, 1.0)]
    requires coil == Coil(100.0, 1000.0) && x == [1.0, 2.0 / 3.0]
    ensures Optimal(CoilProblem(orders, coil), x)
    ensures Sum(SelectCuts(Widths(orders), x)) > coil.width
  {
    OverfillOptimum(orders, coil, x);
    assert Widths(orders) == [60.0, 60.0];
    OverfillCuts(Widths(orders), x);
  }

  /** Every optimum of that instance has both entries at least 2/3, so no
      solver that reports an optimum can keep the rounded pattern within the
      coil. */
  lemma EveryOptimumOverfillsCoil(orders: seq<Order>, coil: Coil, x: seq<real>)
    requires orders == [Order(60.0, 1.0), Order(60.0, 1.0)]
    requires coil == Coil(100.0, 1000.0)
    requires Optimal(CoilProblem(orders, coil), x)
    ensures |x| == 2 && x[0] > Half && x[1] > Half
    ensures SelectCuts(Widths(orders), x) == [60.0, 60.0]
    ensures Sum(SelectCuts(Widths(orders), x)) > coil.width
  {
    var w, v := Widths(orders), Lengths(orders);
    assert w == [60.0, 60.0] && v == [1.0, 1.0];
    var vertex := [1.0, 2.0 / 3.0];
    OverfillOptimum(orders, coil, vertex);
    OverfillArithmetic(x, vertex);
    OverfillCuts(w, x);
  }

  lemma OverfillArithmetic(x: seq<real>, vertex: seq<real>)
    requires vertex == [1.0, 2.0 / 3.0]
    requires Optimal(CoilProblem([Order(60.0, 1.0), Order(60.0, 1.0)], Coil(100.0, 1000.0)), x)
    ensures |x| == 2 && x[0] >= 2.0 / 3.0 && x[1] >= 2.0 / 3.0
  {
    var orders := [Order(60.0, 1.0), Order(60.0, 1.0)];
    var p := CoilProblem(orders, Coil(100.0, 1000.0));
    var w, v := Widths(orders), Lengths(orders);
    assert w == [60.0, 60.0] && v == [1.0, 1.0];
    FormulationIsKnapsackRelaxation(w, v, 100.0, vertex);
    DotOfTwo(w, vertex);
    DotOfTwo(v, vertex);
    assert Feasible(p, vertex);
    FormulationIsKnapsackRelaxation(w, v, 100.0, x);
    DotOfTwo(w, x);
    DotOfTwo(v, x);
    assert Objective(p, x) <= Objective(p, vertex);
  }

  lemma DotOfFour(a: seq<real>, b: seq<real>)
    requires |a| == |b| == 4
    ensures Dot(a, b) == a[0] * b[0] + a[1] * b[1] + a[2] * b[2] + a[3] * b[3]
  {
    DotOfTwo(a[..2], b[..2]);
    assert a[..3][..2] == a[..2] && b[..3][..2] == b[..2];
    assert Dot(a[..3], b[..3]) == Dot(a[..2], b[..2]) + a[2] * b[2];
  }

  /** The only way to reach length 13 within width 100 in the four-order instance. */
  lemma ScenarioArithmetic(x0: real, x1: real, x2: real, x3: real)
    requires 0.0 <= x0 <= 1.0 && 0.0 <= x1 <= 1.0 && 0.0 <= x2 <= 1.0 && 0.0 <= x3 <= 1.0
    requires 30.0 * x0 + 40.0 * x1 + 50.0 * x2 + 20.0 * x3 <= 100.0
    requires 5.0 * x0 + 3.0 * x1 + 6.0 * x2 + 2.0 * x3 >= 13.0
    ensures x0 == 1.0 && x1 == 0.0 && x2 == 1.0 && x3 == 1.0
  {
  }

  /** Four orders on a 100-wide coil: the relaxation has a single optimum,
      and it is integral. */
  lemma ScenarioOptimumIsUnique(x: seq<real>)
    requires Optimal(CoilProblem([Order(30.0, 5.0), Order(40.0, 3.0), Order(50.0, 6.0), Order(20.0, 2.0)],
                                 Coil(100.0, 1000.0)), x)
    ensures x == [1.0, 0.0, 1.0, 1.0]
  {
    var orders := [Order(30.0, 5.0), Order(40.0, 3.0), Order(50.0, 6.0), Order(20.0, 2.0)];
    var p := CoilProblem(orders, Coil(100.0, 1000.0));
    var w, v := Widths(orders), Lengths(orders);
    assert w == [30.0, 40.0, 50.0, 20.0] && v == [5.0, 3.0, 6.0, 2.0];
    var best := [1.0, 0.0, 1.0, 1.0];
    FormulationIsKnapsackRelaxation(w, v, 100.0, best);
    DotOfFour(w, best);
    DotOfFour(v, best);
    assert Feasible(p, best);
    assert Objective(p, best) == -13.0;
    FormulationIsKnapsackRelaxation(w, v, 100.0, x);
    DotOfFour(w, x);
    DotOfFour(v, x);
    ScenarioArithmetic(x[0], x[1], x[2], x[3]);
  }

  lemma ScenarioCuts(w: seq<real>, x: seq<real>)
    requires w == [30.0, 40.0, 50.0, 20.0] && x == [1.0, 0.0, 1.0, 1.0]
    ensures SelectCuts(w, x) == [30.0, 50.0, 20.0]
  {
    assert SelectCuts(w[..1], x[..1]) == [30.0] by {
      assert w[..1][..0] == [] && x[..1][..0] == [];
    }
    assert SelectCuts(w[..2], x[..2]) == [30.0] by {
      assert w[..2][..1] == w[..1] && x[..2][..1] == x[..1];
    }
    assert SelectCuts(w[..3], x[..3]) == [30.0, 50.0] by {
      assert w[..3][..2] == w[..2] && x[..3][..2] == x[..2];
    }
  }

  lemma ScenarioSorted(cuts: seq<real>)
    requires cuts == [30.0, 50.0, 20.0]
    ensures Sort(cuts) == [20.0, 30.0, 50.0]
  {
    var sorted := [20.0, 30.0, 50.0];
    assert NonDecreasing(sorted);
    assert multiset(cuts) == multiset(sorted);
    SortCharacterised(cuts, sorted);
  }

  /** Whatever optimum the solver reports for that instance, the run cuts 30,
      50 and 20 and adjusts them to 20, 30, 50. */
  lemma ScenarioPlan(x: seq<real>)
    requires Optimal(CoilProblem([Order(30.0, 5.0), Order(40.0, 3.0), Order(50.0, 6.0), Order(20.0, 2.0)],
                                 Coil(100.0, 1000.0)), x)
    ensures SelectCuts([30.0, 40.0, 50.0, 20.0], x) == [30.0, 50.0, 20.0]
    ensures Sort(SelectCuts([30.0, 40.0, 50.0, 20.0], x)) == [20.0, 30.0, 50.0]
  {
    ScenarioOptimumIsUnique(x);
    var w := [30.0, 40.0, 50.0, 20.0];
    ScenarioCuts(w, x);
    ScenarioSorted(SelectCuts(w, x));
  }

  /** The two-coil batch over the same four orders: a coil of width 0 and a
      coil of width 100. Whatever feasible answer the solver gives for the
      first and whatever optimum for the second, the first pattern is empty
      and the second is cut 30, 50, 20 and adjusted to 20, 30, 50. */
  lemma ScenarioBatch(orders: seq<Order>, empty: Coil, full: Coil, x0: seq<real>, x1: seq<real>)
    requires orders == [Order(30.0, 5.0), Order(40.0, 3.0), Order(50.0, 6.0), Order(20.0, 2.0)]
    requires empty.width == 0.0 && full.width == 100.0
    requires Feasible(CoilProblem(orders, empty), x0)
    requires Optimal(CoilProblem(orders, full), x1)
    ensures SelectCuts(Widths(orders), x0) == [] && Sort(SelectCuts(Widths(orders), x0)) == []
    ensures SelectCuts(Widths(orders), x1) == [30.0, 50.0, 20.0]
    ensures Sort(SelectCuts(Widths(orders), x1)) == [20.0, 30.0, 50.0]
  {
    ZeroCoilCutsNothing(orders, empty, x0);
    assert CoilProblem(orders, full) == CoilProblem(orders, Coil(100.0, 1000.0));
    assert Widths(orders) == [30.0, 40.0, 50.0, 20.0];
    ScenarioPlan(x1);
  }

  // ------------------------------------------------------------- the planner

  /** The knapsack `optimize_slitting_patterns` solves for one coil: always
      the full order list, with only the capacity taken from the coil. */
  function CoilProblem(orders: seq<Order>, coil: Coil): Problem
  {
    Formulate(Widths(orders), Lengths(orders), coil.width)
  }

  /** Two coils' problems differ in nothing but the capacity bound: orders
      are never used up by an earlier coil. */
  lemma CoilProblemsShareOrders(orders: seq<Order>, a: Coil, b: Coil)
    ensures CoilProblem(orders, b) == CoilProblem(orders, a).(bUb := [b.width])
  {
  }

  /** One pattern per coil, in coil order, each cut from the coil unchanged;
      the first failed solve aborts the whole batch. */
  method OptimizeSlittingPatterns(coils: seq<Coil>, orders: seq<Order>, solver: Problem -> Outcome)
    returns (r: Result<seq<Pattern>>)
    requires Conforms(solver)
    ensures r.Ok? <==> forall k :: 0 <= k < |coils| ==> solver(CoilProblem(orders, coils[k])).success
    ensures r.Err? ==> r.error == OptimizationFailed
    ensures r.Ok? ==> |r.value| == |coils|
    ensures r.Ok? ==> forall k :: 0 <= k < |coils| ==>
      && r.value[k].coil == coils[k]
      && |solver(CoilProblem(orders, coils[k])).x| == |orders|
      && r.value[k].cuts == SelectCuts(Widths(orders), solver(CoilProblem(orders, coils[k])).x)
  {
    var patterns: seq<Pattern> := [];
    for k := 0 to |coils|
      invariant |patterns| == k
      invariant forall j :: 0 <= j < k ==>
        && solver(CoilProblem(orders, coils[j])).success
        && patterns[j].coil == coils[j]
        && |solver(CoilProblem(orders, coils[j])).x| == |orders|
        && patterns[j].cuts == SelectCuts(Widths(orders), solver(CoilProblem(orders, coils[j])).x)
    {
      var coil := coils[k];
      var widths := Widths(orders);
      var lengths := Lengths(orders);
      var solved := Knapsack(widths, lengths, coil.width, solver);
      if solved.Err? {
        return Err(solved.error);
      }
      var pattern := SelectCuts(widths, solved.value.x);
      patterns := patterns + [Pattern(coil, pattern)];
    }
    return Ok(patterns);
  }

  /** `adjusted` keeps each coil and its pattern's widths, in ascending order. */
  predicate IsShearAdjustment(patterns: seq<Pattern>, adjusted: seq<Pattern>)
  {
    && |adjusted| == |patterns|
    && forall k :: 0 <= k < |patterns| ==>
      && adjusted[k].coil == patterns[k].coil
      && NonDecreasing(adjusted[k].cuts)
      && multiset(adjusted[k].cuts) == multiset(patterns[k].cuts)
  }

  /** Sorts every pattern's cuts, keeping coils and order of patterns. */
  method MinimizeShearAdjustments(patterns: seq<Pattern>) returns (adjusted: seq<Pattern>)
    ensures IsShearAdjustment(patterns, adjusted)
  {
    adjusted := [];
    for k := 0 to |patterns|
      invariant IsShearAdjustment(patterns[..k], adjusted)
    {
      var coil, cuts := patterns[k].coil, patterns[k].cuts;
      var sortedCuts := Sort(cuts);
      adjusted := adjusted + [Pattern(coil, sortedCuts)];
    }
    assert patterns[..|patterns|] == patterns;
  }

  /** There is only one shear adjustment of a plan: each list is `Sort`ed. */
  lemma ShearAdjustmentUnique(patterns: seq<Pattern>, a: seq<Pattern>, b: seq<Pattern>)
    requires IsShearAdjustment(patterns, a) && IsShearAdjustment(patterns, b)
    ensures a == b
    ensures forall k :: 0 <= k < |a| ==> a[k].cuts == Sort(patterns[k].cuts)
  {
    forall k | 0 <= k < |a|
      ensures a[k] == b[k] && a[k].cuts == Sort(patterns[k].cuts)
    {
      SortedPermutationUnique(a[k].cuts, b[k].cuts);
      SortedPermutationUnique(a[k].cuts, Sort(patterns[k].cuts));
    }
  }

  /** Adjusting an adjusted plan again changes nothing. */
  lemma ShearAdjustmentIdempotent(patterns: seq<Pattern>, once: seq<Pattern>, twice: seq<Pattern>)
    requires IsShearAdjustment(patterns, once)
    requires IsShearAdjustment(once, twice)
    ensures twice == once
  {
    assert IsShearAdjustment(once, once);
    ShearAdjustmentUnique(once, once, twice);
  }

  /** The optimisation run: patterns for every coil, then their
      shear-adjusted form; an exception from the first step ends the run. */
  method PlanSlitting(coils: seq<Coil>, orders: seq<Order>, solver: Problem -> Outcome)
    returns (r: Result<(seq<Pattern>, seq<Pattern>)>)
    requires Conforms(solver)
    ensures r.Ok? <==> forall k :: 0 <= k < |coils| ==> solver(CoilProblem(orders, coils[k])).success
    ensures r.Err? ==> r.error == OptimizationFailed
    ensures r.Ok? ==>
      var (patterns, adjusted) := r.value;
      && |patterns| == |coils|
      && IsShearAdjustment(patterns, adjusted)
      && forall k :: 0 <= k < |coils| ==>
        && patterns[k].coil == coils[k]
        && |solver(CoilProblem(orders, coils[k])).x| == |orders|
        && patterns[k].cuts == SelectCuts(Widths(orders), solver(CoilProblem(orders, coils[k])).x)
        && adjusted[k].coil == coils[k]
        && adjusted[k].cuts == Sort(patterns[k].cuts)
        && |adjusted[k].cuts| <= |orders|
        && multiset(adjusted[k].cuts) <= multiset(Widths(orders))
  {
    var patterns := OptimizeSlittingPatterns(coils, orders, solver);
    if patterns.Err? {
      return Err(patterns.error);
    }
    var adjusted := MinimizeShearAdjustments(patterns.value);
    ShearAdjustmentUnique(patterns.value, adjusted, adjusted);
    forall k | 0 <= k < |coils|
      ensures |adjusted[k].cuts| <= |orders|
      ensures multiset(adjusted[k].cuts) <= multiset(Widths(orders))
    {
      SelectCutsDrawnFromOrders(Widths(orders), solver(CoilProblem(orders, coils[k])).x);
      assert |adjusted[k].cuts| == |multiset(adjusted[k].cuts)| == |multiset(patterns.value[k].cuts)|;
    }
    return Ok((patterns.value, adjusted));
  }
}
