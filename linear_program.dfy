/**
 The interface of the linear-programming solver that the slitting planner calls
 (scipy's `linprog` with the HiGHS method). The solver itself is not modelled:
 it is a function value handed to the planner, and `Conforms` states the only
 guarantees the planner may rely on.
 */
module LinearProgram {

  /** Box bound `lo <= x[i] <= hi` of one variable. */
  datatype Bound = Bound(lo: real, hi: real)

  /** minimise `c . x` subject to `aUb[r] . x <= bUb[r]` for every row `r`
      and `bounds[i].lo <= x[i] <= bounds[i].hi` for every variable `i`. */
  datatype Problem = Problem(c: seq<real>, aUb: seq<seq<real>>, bUb: seq<real>, bounds: seq<Bound>)

  /** What the solver hands back: the success flag, the objective value `fun`
      and the solution vector `x`. */
  datatype Outcome = Outcome(success: bool, fun: real, x: seq<real>)

  /** Inner product, accumulated from the front. */
  function Dot(a: seq<real>, b: seq<real>): real
    requires |a| == |b|
  {
    if a == [] then 0.0 else Dot(a[..|a| - 1], b[..|b| - 1]) + a[|a| - 1] * b[|b| - 1]
  }

  /** Negating one factor negates the inner product. */
  lemma {:induction false} DotNegated(a: seq<real>, na: seq<real>, b: seq<real>)
    requires |a| == |na| == |b|
    requires forall i :: 0 <= i < |a| ==> na[i] == -a[i]
    ensures Dot(na, b) == -Dot(a, b)
  {
    if a != [] {
      DotNegated(a[..|a| - 1], na[..|na| - 1], b[..|b| - 1]);
    }
  }

  predicate WithinBounds(bounds: seq<Bound>, x: seq<real>)
    requires |bounds| == |x|
  {
    forall i :: 0 <= i < |x| ==> bounds[i].lo <= x[i] <= bounds[i].hi
  }

  function Objective(p: Problem, x: seq<real>): real
    requires |x| == |p.c|
  {
    Dot(p.c, x)
  }

  /** `x` satisfies every bound and every `<=` row of `p`. */
  ghost predicate Feasible(p: Problem, x: seq<real>)
  {
    && |x| == |p.c|
    && |p.bounds| == |x|
    && WithinBounds(p.bounds, x)
    && |p.aUb| == |p.bUb|
    && forall r :: 0 <= r < |p.aUb| ==> |p.aUb[r]| == |x| && Dot(p.aUb[r], x) <= p.bUb[r]
  }

  /** `x` is feasible and no feasible point has a smaller objective. */
  ghost predicate Optimal(p: Problem, x: seq<real>)
  {
    Feasible(p, x) && forall y :: Feasible(p, y) ==> Objective(p, x) <= Objective(p, y)
  }

  /** The solver's guarantee for one problem: a successful outcome carries one
      value per variable, each within its bound, and `fun` is the objective at
      that point. Neither optimality nor the `<=` rows are promised. */
  ghost predicate Answers(p: Problem, o: Outcome)
  {
    o.success ==>
      && |o.x| == |p.c|
      && (|p.bounds| == |p.c| ==> WithinBounds(p.bounds, o.x))
      && o.fun == Objective(p, o.x)
  }

  /** A solver that keeps that guarantee on every problem. */
  ghost predicate Conforms(solver: Problem -> Outcome)
  {
    forall p :: Answers(p, solver(p))
  }
}
