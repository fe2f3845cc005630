/**
 What the greedy planner plans, without its clamps: each setpoint is the allowed power nearest to the
 surplus that is forecast, or zero if that power would take the charge out of its limits.
 */
module GreedyPlan {
  import opened Common
  import opened EnergyPlanner

  /** Within the power limits, and within the ramp of the setpoint before. */
  predicate Allowed(c: Envelope, previous: real, x: real) {
    && c.minimumPower <= x <= c.maximumPower
    && previous - c.maximumRamp <= x <= previous + c.maximumRamp
  }

  predicate Nearer(w: real, x: real, y: real) {
    (if x < w then w - x else x - w) <= (if y < w then w - y else y - w)
  }

  /** No allowed power is nearer to w. */
  ghost predicate Nearest(c: Envelope, previous: real, w: real, x: real) {
    Allowed(c, previous, x) && forall y | Allowed(c, previous, y) :: Nearer(w, x, y)
  }

  lemma WishIsNearest(c: Envelope, previous: real, point: ForecastPoint)
    requires ValidEnvelope(c) && Within(c.minimumPower, previous, c.maximumPower)
    ensures Nearest(c, previous, point.renewable - point.demand, Wish(c, previous, point))
  {
    WishInRange(c, previous, point);
  }

  lemma NearestIsUnique(c: Envelope, previous: real, w: real, x: real, y: real)
    requires Nearest(c, previous, w, x) && Nearest(c, previous, w, y)
    ensures x == y
  {
    var middle := (x + y) / 2.0;
    assert Allowed(c, previous, middle);
    assert Nearer(w, x, y) && Nearer(w, y, x) && Nearer(w, x, middle);
  }

  /** The charge after an interval at this power. */
  predicate Carries(c: Envelope, before: real, x: real, after: real)
    requires c.capacity > 0.0
  {
    after == before + x * c.interval / c.capacity
  }

  /** The power that is wished for, if the charge stays within its limits. */
  predicate Chosen(c: Envelope, wish: real, after: real, x: real) {
    x == if c.minimumCharge <= after <= c.maximumCharge then wish else 0.0
  }

  /** What one interval of the plan is set to. */
  ghost predicate Greedy(c: Envelope, charge: real, previous: real, surplus: real, x: real)
    requires c.capacity > 0.0
  {
    exists wish, after :: Nearest(c, previous, surplus, wish) && Carries(c, charge, wish, after) && Chosen(c, wish, after, x)
  }

  lemma CarriesOnce(c: Envelope, before: real, x: real, after: real, behind: real)
    requires c.capacity > 0.0 && Carries(c, before, x, after) && Carries(c, before, x, behind)
    ensures after == behind
  {
  }

  lemma GreedyIs(c: Envelope, charge: real, previous: real, surplus: real, x: real, wish: real, after: real)
    requires c.capacity > 0.0 && Nearest(c, previous, surplus, wish) && Carries(c, charge, wish, after)
    ensures Greedy(c, charge, previous, surplus, x) <==> Chosen(c, wish, after, x)
  {
    if Greedy(c, charge, previous, surplus, x) {
      var other, behind :| Nearest(c, previous, surplus, other) && Carries(c, charge, other, behind) && Chosen(c, other, behind, x);
      NearestIsUnique(c, previous, surplus, other, wish);
      CarriesOnce(c, charge, wish, after, behind);
    }
  }

  lemma StepCarries(c: Envelope, before: real, x: real)
    requires c.capacity > 0.0
    ensures Carries(c, before, x, before + ChargeStep(c, x))
  {
  }

  function Surplus(point: ForecastPoint): real {
    point.renewable - point.demand
  }

  lemma {:induction false} StepIsGreedy(c: Envelope, charge: real, previous: real, point: ForecastPoint, x: real)
    requires ValidEnvelope(c)
    requires Within(c.minimumCharge, charge, c.maximumCharge) && Within(c.minimumPower, previous, c.maximumPower)
    ensures x == Setpoint(c, charge, previous, point) <==> Greedy(c, charge, previous, Surplus(point), x)
  {
    var wish := Wish(c, previous, point);
    StepIsSafe(c, charge, previous, point);
    WishIsNearest(c, previous, point);
    StepCarries(c, charge, wish);
    GreedyIs(c, charge, previous, Surplus(point), x, wish, charge + ChargeStep(c, wish));
  }

  // ---------- whole plans ----------

  /** The charge at the beginning of each interval and at the end. */
  ghost predicate Charges(c: Envelope, s: seq<real>, charges: seq<real>)
    requires c.capacity > 0.0
  {
    && |charges| == |s| + 1 && charges[0] == c.initialCharge
    && forall k {:trigger s[k]} | 0 <= k < |s| :: Carries(c, charges[k], s[k], charges[k + 1])
  }

  predicate Before(s: seq<real>, k: nat, previous: real)
    requires k <= |s|
  {
    previous == if k == 0 then 0.0 else s[k - 1]
  }

  ghost predicate AllGreedy(c: Envelope, forecast: seq<ForecastPoint>, s: seq<real>, charges: seq<real>)
    requires c.capacity > 0.0 && |s| <= |forecast| && |s| <= |charges|
  {
    forall k, previous | 0 <= k < |s| && Before(s, k, previous) :: Greedy(c, charges[k], previous, Surplus(forecast[k]), s[k])
  }

  /** Each setpoint is the greedy one for the charge and the power it starts from. */
  ghost predicate IsGreedyPlan(c: Envelope, forecast: seq<ForecastPoint>, s: seq<real>)
    requires c.capacity > 0.0
  {
    |s| == |forecast| && exists charges :: Charges(c, s, charges) && AllGreedy(c, forecast, s, charges)
  }

  lemma {:induction false} ChargesAre(c: Envelope, s: seq<real>, charges: seq<real>, k: nat)
    requires c.capacity > 0.0 && Charges(c, s, charges) && k <= |s|
    ensures charges[k] == Charge(c, s[..k])
    decreases k
  {
    if k > 0 {
      ChargesAre(c, s, charges, k - 1);
      assert s[..k][..k - 1] == s[..k - 1];
      assert Carries(c, charges[k - 1], s[k - 1], charges[k]);
    }
  }

  lemma {:induction false} ChargesExist(c: Envelope, s: seq<real>) returns (charges: seq<real>)
    requires c.capacity > 0.0
    ensures Charges(c, s, charges)
    decreases |s|
  {
    if s == [] {
      charges := [c.initialCharge];
    } else {
      var front := ChargesExist(c, s[..|s| - 1]);
      charges := front + [front[|s| - 1] + s[|s| - 1] * c.interval / c.capacity];
      forall k | 0 <= k < |s|
        ensures Carries(c, charges[k], s[k], charges[k + 1])
      {
        if k < |s| - 1 {
          assert Carries(c, front[k], s[..|s| - 1][k], front[k + 1]);
        }
      }
    }
  }

  lemma {:induction false} GreedyAt(c: Envelope, forecast: seq<ForecastPoint>, k: nat, x: real)
    requires ValidEnvelope(c) && k < |forecast|
    ensures var s := Setpoints(c, forecast, k);
      Greedy(c, Charge(c, s), Last(s), Surplus(forecast[k]), x) <==> x == Setpoint(c, Charge(c, s), Last(s), forecast[k])
  {
    var s := Setpoints(c, forecast, k);
    PlannedInRange(c, forecast, k);
    StepIsGreedy(c, Charge(c, s), Last(s), forecast[k], x);
  }

  lemma {:induction false} PlannedIsGreedy(c: Envelope, forecast: seq<ForecastPoint>)
    requires ValidEnvelope(c)
    ensures IsGreedyPlan(c, forecast, Setpoints(c, forecast, |forecast|))
  {
    var s := Setpoints(c, forecast, |forecast|);
    var charges := ChargesExist(c, s);
    forall k, previous | 0 <= k < |s| && Before(s, k, previous)
      ensures Greedy(c, charges[k], previous, Surplus(forecast[k]), s[k])
    {
      ChargesAre(c, s, charges, k);
      SetpointsPrefix(c, forecast, k, |forecast|);
      SetpointsPrefix(c, forecast, k + 1, |forecast|);
      var x := SetpointsExtend(c, forecast, k);
      assert s[k] == s[..k + 1][k] == x;
      LastOf(s, k);
      GreedyAt(c, forecast, k, x);
    }
  }

  lemma LastOf(s: seq<real>, k: nat)
    requires k <= |s|
    ensures Before(s, k, Last(s[..k]))
  {
  }

  lemma {:induction false} GreedyThere(c: Envelope, forecast: seq<ForecastPoint>, s: seq<real>, charges: seq<real>, k: nat)
    requires ValidEnvelope(c) && k < |s| <= |forecast| && Charges(c, s, charges) && AllGreedy(c, forecast, s, charges)
    ensures Greedy(c, Charge(c, s[..k]), Last(s[..k]), Surplus(forecast[k]), s[k])
  {
    ChargesAre(c, s, charges, k);
    LastOf(s, k);
  }

  lemma {:induction false} GreedyIsPlanned(c: Envelope, forecast: seq<ForecastPoint>, s: seq<real>, charges: seq<real>, n: nat)
    requires ValidEnvelope(c) && n <= |s| <= |forecast| && Charges(c, s, charges) && AllGreedy(c, forecast, s, charges)
    ensures s[..n] == Setpoints(c, forecast, n)
    decreases n
  {
    if n > 0 {
      GreedyIsPlanned(c, forecast, s, charges, n - 1);
      GreedyThere(c, forecast, s, charges, n - 1);
      GreedyAt(c, forecast, n - 1, s[n - 1]);
      var x := SetpointsExtend(c, forecast, n - 1);
      assert s[..n] == s[..n - 1] + [s[n - 1]];
    }
  }

  /** The plan is the one sequence that is greedy in every interval. */
  lemma {:induction false} PlanIff(c: Envelope, forecast: seq<ForecastPoint>, s: seq<real>)
    requires ValidEnvelope(c)
    ensures s == Setpoints(c, forecast, |forecast|) <==> IsGreedyPlan(c, forecast, s)
  {
    PlannedIsGreedy(c, forecast);
    if IsGreedyPlan(c, forecast, s) {
      var charges :| Charges(c, s, charges) && AllGreedy(c, forecast, s, charges);
      GreedyIsPlanned(c, forecast, s, charges, |s|);
      assert s[..|s|] == s;
    }
  }
}
