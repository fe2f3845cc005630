/**
 The constrained energy planner over the reals: a greedy loop that follows the forecast, limited
 in power, ramp and state of charge, with an all-zero fallback.
 */
module EnergyPlanner {
  import opened Common

  datatype ForecastPoint = ForecastPoint(demand: real, renewable: real, confidence: real)

  datatype Envelope = Envelope(
    minimumPower: real,
    maximumPower: real,
    maximumRamp: real,
    minimumCharge: real,
    maximumCharge: real,
    initialCharge: real,
    capacity: real,
    interval: real)

  datatype Reason = FORECAST_OOD | PLANNER_UNAVAILABLE

  /** The digest of the constraints is modelled as the constraints. */
  datatype Plan = Plan(
    setpoints: seq<real>,
    confidence: real,
    outOfDistribution: bool,
    requiresShadowValidation: bool,
    constraintDigest: Envelope,
    fallbackReason: Option<Reason>)

  datatype Error = ENERGY_INPUT_INVALID | ENERGY_HORIZON_INVALID

  function Max(a: real, b: real): real {
    if a >= b then a else b
  }

  function Min(a: real, b: real): real {
    if a <= b then a else b
  }

  function Clamp(low: real, high: real, x: real): real {
    Max(low, Min(high, x))
  }

  function Abs(x: real): real {
    if x < 0.0 then -x else x
  }

  predicate ValidEnvelope(c: Envelope) {
    && c.minimumPower <= 0.0 <= c.maximumPower
    && c.maximumRamp > 0.0
    && 0.0 <= c.minimumCharge < c.maximumCharge <= 1.0
    && c.minimumCharge <= c.initialCharge <= c.maximumCharge
    && c.capacity > 0.0
    && c.interval > 0.0
  }

  predicate ValidInput(forecast: seq<ForecastPoint>, c: Envelope) {
    && 0 < |forecast| <= 10000
    && ValidEnvelope(c)
    && forall i | 0 <= i < |forecast| :: 0.0 <= forecast[i].confidence <= 1.0
  }

  /** The change of charge that a setpoint causes in one interval. */
  function ChargeStep(c: Envelope, setpoint: real): real
    requires c.capacity > 0.0
  {
    setpoint * c.interval / c.capacity
  }

  /** The setpoint that changes the charge by the given amount in one interval. */
  function PowerFor(c: Envelope, change: real): real
    requires c.interval > 0.0
  {
    change * c.capacity / c.interval
  }

  /** The forecast's wish within power and ramp limits. */
  function Wish(c: Envelope, previous: real, point: ForecastPoint): real {
    var desired := Clamp(c.minimumPower, c.maximumPower, point.renewable - point.demand);
    Clamp(previous - c.maximumRamp, previous + c.maximumRamp, desired)
  }

  /** Whether the charge limits override the wish. */
  predicate Overridden(c: Envelope, charge: real, previous: real, point: ForecastPoint)
    requires c.capacity > 0.0
  {
    var projected := charge + ChargeStep(c, Wish(c, previous, point));
    projected < c.minimumCharge || projected > c.maximumCharge
  }

  /** The setpoint before the final clamp. */
  function Unclamped(c: Envelope, charge: real, previous: real, point: ForecastPoint): real
    requires c.capacity > 0.0 && c.interval > 0.0
  {
    var wish := Wish(c, previous, point);
    var projected := charge + ChargeStep(c, wish);
    if projected < c.minimumCharge then Max(0.0, PowerFor(c, c.minimumCharge - charge))
    else if projected > c.maximumCharge then Min(0.0, PowerFor(c, c.maximumCharge - charge))
    else wish
  }

  function Setpoint(c: Envelope, charge: real, previous: real, point: ForecastPoint): real
    requires c.capacity > 0.0 && c.interval > 0.0
  {
    Clamp(c.minimumPower, c.maximumPower, Unclamped(c, charge, previous, point))
  }

  /** The setpoints for the first n points. */
  function Setpoints(c: Envelope, forecast: seq<ForecastPoint>, n: nat): (s: seq<real>)
    requires c.capacity > 0.0 && c.interval > 0.0 && n <= |forecast|
    ensures |s| == n
  {
    if n == 0 then []
    else
      var s := Setpoints(c, forecast, n - 1);
      s + [Setpoint(c, Charge(c, s), Last(s), forecast[n - 1])]
  }

  function Last(s: seq<real>): real {
    if s == [] then 0.0 else s[|s| - 1]
  }

  /** The state of charge after a sequence of setpoints. */
  function Charge(c: Envelope, s: seq<real>): real
    requires c.capacity > 0.0
  {
    if s == [] then c.initialCharge else Charge(c, s[..|s| - 1]) + ChargeStep(c, s[|s| - 1])
  }

  // ---------- the planner ----------

  ghost predicate IsLeast(forecast: seq<ForecastPoint>, least: real) {
    && (exists i :: 0 <= i < |forecast| && forecast[i].confidence == least)
    && (forall i | 0 <= i < |forecast| :: least <= forecast[i].confidence)
  }

  method MinimumConfidence(forecast: seq<ForecastPoint>) returns (least: real)
    requires forecast != []
    ensures IsLeast(forecast, least)
  {
    least := forecast[0].confidence;
    for i := 1 to |forecast|
      invariant exists k :: 0 <= k < i && forecast[k].confidence == least
      invariant forall k | 0 <= k < i :: least <= forecast[k].confidence
    {
      if forecast[i].confidence < least {
        least := forecast[i].confidence;
      }
    }
  }

  predicate Misbalanced(point: ForecastPoint, c: Envelope) {
    Abs(point.demand - point.renewable) > c.maximumPower * 4.0
  }

  /** The forecasts that are planned rather than answered with the fallback. */
  predicate Confident(forecast: seq<ForecastPoint>, c: Envelope) {
    forall i | 0 <= i < |forecast| :: forecast[i].confidence >= 0.65 && !Misbalanced(forecast[i], c)
  }

  method SafeFallback(horizon: int, c: Envelope, reason: Reason) returns (result: Result<Plan, Error>)
    ensures horizon < 1 || horizon > 10000 <==> result.Err?
    ensures result.Err? ==> result.error == ENERGY_HORIZON_INVALID
    ensures result.Ok? ==>
      result.value == Plan(seq(horizon, _ => 0.0), 1.0, true, true, c, Some(reason))
  {
    if horizon < 1 || horizon > 10000 {
      return Err(ENERGY_HORIZON_INVALID);
    }
    return Ok(Plan(seq(horizon, _ => 0.0), 1.0, true, true, c, Some(reason)));
  }

  method OutOfDistribution(forecast: seq<ForecastPoint>, c: Envelope, confidence: real) returns (found: bool)
    ensures found <==> confidence < 0.65 || exists k :: 0 <= k < |forecast| && Misbalanced(forecast[k], c)
  {
    found := confidence < 0.65;
    for i := 0 to |forecast|
      invariant found <==> (confidence < 0.65 || exists k :: 0 <= k < i && Misbalanced(forecast[k], c))
    {
      found := found || Abs(forecast[i].demand - forecast[i].renewable) > c.maximumPower * 4.0;
    }
  }

  /** One turn of the greedy loop, up to the final clamp. */
  method Decide(c: Envelope, charge: real, previous: real, point: ForecastPoint) returns (desired: real)
    requires ValidEnvelope(c)
    ensures desired == Setpoint(c, charge, previous, point)
  {
    desired := point.renewable - point.demand;
    desired := Clamp(c.minimumPower, c.maximumPower, desired);
    desired := Clamp(previous - c.maximumRamp, previous + c.maximumRamp, desired);
    assert desired == Wish(c, previous, point);
    var projected := charge + ChargeStep(c, desired);
    if projected < c.minimumCharge {
      desired := Max(0.0, PowerFor(c, c.minimumCharge - charge));
    } else if projected > c.maximumCharge {
      desired := Min(0.0, PowerFor(c, c.maximumCharge - charge));
    }
    desired := Clamp(c.minimumPower, c.maximumPower, desired);
  }

  lemma {:induction false} SetpointsStep(c: Envelope, forecast: seq<ForecastPoint>, s: seq<real>, charge: real, previous: real)
    requires ValidEnvelope(c) && |s| < |forecast| && s == Setpoints(c, forecast, |s|)
    requires charge == Charge(c, s) && previous == Last(s)
    ensures var x := Setpoint(c, charge, previous, forecast[|s|]);
      && s + [x] == Setpoints(c, forecast, |s + [x]|)
      && Charge(c, s + [x]) == charge + ChargeStep(c, x)
      && Last(s + [x]) == x
  {
    var x := Setpoint(c, charge, previous, forecast[|s|]);
    assert (s + [x])[..|s|] == s;
  }

  /** The greedy loop. */
  method Follow(forecast: seq<ForecastPoint>, c: Envelope) returns (setpoints: seq<real>)
    requires ValidEnvelope(c)
    ensures setpoints == Setpoints(c, forecast, |forecast|)
  {
    var charge := c.initialCharge;
    var previous := 0.0;
    setpoints := [];
    for i := 0 to |forecast|
      invariant setpoints == Setpoints(c, forecast, i)
      invariant charge == Charge(c, setpoints)
      invariant previous == Last(setpoints)
    {
      var desired := Decide(c, charge, previous, forecast[i]);
      SetpointsStep(c, forecast, setpoints, charge, previous);
      charge := charge + ChargeStep(c, desired);
      setpoints := setpoints + [desired];
      previous := desired;
    }
  }

  method Propose(forecast: seq<ForecastPoint>, c: Envelope) returns (result: Result<Plan, Error>)
    ensures !ValidInput(forecast, c) ==> result == Err(ENERGY_INPUT_INVALID)
    ensures ValidInput(forecast, c) ==> result.Ok?
    ensures ValidInput(forecast, c) && !Confident(forecast, c) ==>
      result.value == Plan(seq(|forecast|, _ => 0.0), 1.0, true, true, c, Some(FORECAST_OOD))
    ensures ValidInput(forecast, c) && Confident(forecast, c) ==>
      && result.value.setpoints == Setpoints(c, forecast, |forecast|)
      && !result.value.outOfDistribution && result.value.fallbackReason == None
      && IsLeast(forecast, result.value.confidence)
    ensures result.Ok? ==> result.value.requiresShadowValidation && result.value.constraintDigest == c
    ensures result.Ok? <==>
      && 1 <= |forecast| <= 10000
      && c.minimumPower <= 0.0 <= c.maximumPower && 0.0 < c.maximumRamp
      && 0.0 <= c.minimumCharge <= c.initialCharge <= c.maximumCharge <= 1.0 && c.minimumCharge < c.maximumCharge
      && 0.0 < c.capacity && 0.0 < c.interval
      && (forall i | 0 <= i < |forecast| :: 0.0 <= forecast[i].confidence <= 1.0)
    ensures result.Ok? ==> (result.value.fallbackReason == Some(FORECAST_OOD) <==>
      exists i :: 0 <= i < |forecast| &&
        ( || forecast[i].confidence < 0.65
          || forecast[i].demand - forecast[i].renewable > 4.0 * c.maximumPower
          || forecast[i].renewable - forecast[i].demand > 4.0 * c.maximumPower))
  {
    if !ValidInput(forecast, c) {
      return Err(ENERGY_INPUT_INVALID);
    }
    var confidence := MinimumConfidence(forecast);
    var outOfDistribution := OutOfDistribution(forecast, c, confidence);
    if outOfDistribution {
      result := SafeFallback(|forecast|, c, FORECAST_OOD);
      return;
    }
    var setpoints := Follow(forecast, c);
    return Ok(Plan(setpoints, confidence, false, true, c, None));
  }

  // ---------- safety ----------

  predicate Within(low: real, x: real, high: real) {
    low <= x <= high
  }

  lemma NonNegativeQuotient(a: real, b: real, d: real)
    requires a >= 0.0 && b > 0.0 && d > 0.0
    ensures a * b / d >= 0.0
  {
    assert a * b >= 0.0;
  }

  /** From a charge within its limits the limits never ask for anything but zero power. */
  lemma OverrideIsZero(c: Envelope, charge: real, previous: real, point: ForecastPoint)
    requires ValidEnvelope(c) && Within(c.minimumCharge, charge, c.maximumCharge)
    ensures Overridden(c, charge, previous, point) ==> Unclamped(c, charge, previous, point) == 0.0
    ensures !Overridden(c, charge, previous, point) ==> Unclamped(c, charge, previous, point) == Wish(c, previous, point)
  {
    NonNegativeQuotient(charge - c.minimumCharge, c.capacity, c.interval);
    NonNegativeQuotient(c.maximumCharge - charge, c.capacity, c.interval);
    var below := (charge - c.minimumCharge) * c.capacity;
    assert (c.minimumCharge - charge) * c.capacity == -below;
  }

  lemma WishInRange(c: Envelope, previous: real, point: ForecastPoint)
    requires ValidEnvelope(c) && Within(c.minimumPower, previous, c.maximumPower)
    ensures Within(c.minimumPower, Wish(c, previous, point), c.maximumPower)
    ensures Abs(Wish(c, previous, point) - previous) <= c.maximumRamp
  {
  }

  /** One step: the final clamp changes nothing, and power and charge stay within their limits. */
  lemma StepIsSafe(c: Envelope, charge: real, previous: real, point: ForecastPoint)
    requires ValidEnvelope(c)
    requires Within(c.minimumCharge, charge, c.maximumCharge) && Within(c.minimumPower, previous, c.maximumPower)
    ensures var s := Setpoint(c, charge, previous, point);
      && s == Unclamped(c, charge, previous, point)
      && Within(c.minimumPower, s, c.maximumPower)
      && Within(c.minimumCharge, charge + ChargeStep(c, s), c.maximumCharge)
      && s == (if Overridden(c, charge, previous, point) then 0.0 else Wish(c, previous, point))
  {
    OverrideIsZero(c, charge, previous, point);
    WishInRange(c, previous, point);
    assert ChargeStep(c, 0.0) == 0.0;
  }

  predicate SafePlan(c: Envelope, s: seq<real>)
    requires c.capacity > 0.0
  {
    && (forall i | 0 <= i < |s| :: Within(c.minimumPower, s[i], c.maximumPower))
    && (forall i | 0 <= i <= |s| :: Within(c.minimumCharge, Charge(c, s[..i]), c.maximumCharge))
    && (forall i | 0 <= i < |s| :: s[i] == 0.0 || Abs(s[i] - Last(s[..i])) <= c.maximumRamp)
  }

  lemma ChargeExtends(c: Envelope, s: seq<real>, x: real)
    requires c.capacity > 0.0
    ensures Charge(c, s + [x]) == Charge(c, s) + ChargeStep(c, x)
  {
    assert (s + [x])[..|s|] == s;
  }

  lemma Prefixes(s: seq<real>, x: real, i: nat)
    requires i <= |s|
    ensures (s + [x])[..i] == s[..i]
    ensures i < |s| ==> (s + [x])[i] == s[i]
  {
  }

  lemma {:induction false} SafeExtends(c: Envelope, s: seq<real>, x: real)
    requires c.capacity > 0.0 && SafePlan(c, s)
    requires Within(c.minimumPower, x, c.maximumPower)
    requires Within(c.minimumCharge, Charge(c, s) + ChargeStep(c, x), c.maximumCharge)
    requires x == 0.0 || Abs(x - Last(s)) <= c.maximumRamp
    ensures SafePlan(c, s + [x])
  {
    var t := s + [x];
    ChargeExtends(c, s, x);
    assert s[..|s|] == s && t[..|t|] == t;
    forall i | 0 <= i <= |t|
      ensures Within(c.minimumCharge, Charge(c, t[..i]), c.maximumCharge)
    {
      if i < |t| { Prefixes(s, x, i); }
    }
    forall i | 0 <= i < |t|
      ensures Within(c.minimumPower, t[i], c.maximumPower)
      ensures t[i] == 0.0 || Abs(t[i] - Last(t[..i])) <= c.maximumRamp
    {
      Prefixes(s, x, i);
    }
  }

  /** Every prefix of the planned setpoints is safe, and the final clamp never changes a value. */
  lemma {:induction false} PlannedIsSafe(c: Envelope, forecast: seq<ForecastPoint>, n: nat)
    requires ValidEnvelope(c) && n <= |forecast|
    ensures SafePlan(c, Setpoints(c, forecast, n))
    ensures n > 0 ==> var s := Setpoints(c, forecast, n - 1);
      Last(Setpoints(c, forecast, n)) == Unclamped(c, Charge(c, s), Last(s), forecast[n - 1])
  {
    if n > 0 {
      var s := Setpoints(c, forecast, n - 1);
      PlannedIsSafe(c, forecast, n - 1);
      assert s[..|s|] == s;
      StepIsSafe(c, Charge(c, s), Last(s), forecast[n - 1]);
      WishInRange(c, Last(s), forecast[n - 1]);
      SafeExtends(c, s, Setpoint(c, Charge(c, s), Last(s), forecast[n - 1]));
    }
  }

  lemma ZeroStep(c: Envelope)
    requires c.capacity > 0.0
    ensures ChargeStep(c, 0.0) == 0.0
  {
  }

  lemma {:induction false} ZerosAreSafe(c: Envelope, n: nat)
    requires ValidEnvelope(c)
    ensures SafePlan(c, seq(n, _ => 0.0))
    ensures Charge(c, seq(n, _ => 0.0)) == c.initialCharge
  {
    var s := seq(n, _ => 0.0);
    if n == 0 {
      assert s == [];
    } else {
      var front := seq(n - 1, _ => 0.0);
      ZerosAreSafe(c, n - 1);
      ZeroStep(c);
      SafeExtends(c, front, 0.0);
      assert s == front + [0.0];
      assert s[..n - 1] == front;
    }
  }

  /** Whatever the planner returns is safe, planned or fallback. */
  method ProposeSafely(forecast: seq<ForecastPoint>, c: Envelope) returns (result: Result<Plan, Error>)
    ensures ValidInput(forecast, c) <==> result.Ok?
    ensures result.Ok? ==>
      && |result.value.setpoints| == |forecast|
      && SafePlan(c, result.value.setpoints)
  {
    result := Propose(forecast, c);
    if result.Ok? {
      PlannedIsSafe(c, forecast, |forecast|);
      ZerosAreSafe(c, |forecast|);
    }
  }

  // ---------- the ramp limit is not kept by an override ----------

  /** A step keeps the ramp limit exactly when it is not an override from beyond the ramp. */
  lemma RampKeptIff(c: Envelope, charge: real, previous: real, point: ForecastPoint)
    requires ValidEnvelope(c)
    requires Within(c.minimumCharge, charge, c.maximumCharge) && Within(c.minimumPower, previous, c.maximumPower)
    ensures Abs(Setpoint(c, charge, previous, point) - previous) <= c.maximumRamp
      <==> !(Overridden(c, charge, previous, point) && Abs(previous) > c.maximumRamp)
  {
    StepIsSafe(c, charge, previous, point);
    WishInRange(c, previous, point);
  }

  /** Every setpoint is within the ramp of the one before it. */
  predicate RampKept(c: Envelope, s: seq<real>) {
    forall i {:trigger s[i]} | 0 <= i < |s| :: Abs(s[i] - Last(s[..i])) <= c.maximumRamp
  }

  /** In the k-th interval the charge limits override the wish although the power is beyond the ramp. */
  predicate Cuts(c: Envelope, forecast: seq<ForecastPoint>, k: nat)
    requires c.capacity > 0.0 && c.interval > 0.0 && k < |forecast|
  {
    var s := Setpoints(c, forecast, k);
    Overridden(c, Charge(c, s), Last(s), forecast[k]) && Abs(Last(s)) > c.maximumRamp
  }

  lemma {:induction false} CutsIff(c: Envelope, forecast: seq<ForecastPoint>, k: nat, x: real)
    requires ValidEnvelope(c) && k < |forecast|
    requires var s := Setpoints(c, forecast, k); x == Setpoint(c, Charge(c, s), Last(s), forecast[k])
    ensures Cuts(c, forecast, k) <==> Abs(x - Last(Setpoints(c, forecast, k))) > c.maximumRamp
  {
    var s := Setpoints(c, forecast, k);
    PlannedInRange(c, forecast, k);
    RampKeptIff(c, Charge(c, s), Last(s), forecast[k]);
  }

  lemma SetpointsExtend(c: Envelope, forecast: seq<ForecastPoint>, k: nat) returns (x: real)
    requires ValidEnvelope(c) && k < |forecast|
    ensures var s := Setpoints(c, forecast, k);
      x == Setpoint(c, Charge(c, s), Last(s), forecast[k]) && Setpoints(c, forecast, k + 1) == s + [x]
  {
    var s := Setpoints(c, forecast, k);
    x := Setpoint(c, Charge(c, s), Last(s), forecast[k]);
  }

  lemma {:induction false} SetpointsPrefix(c: Envelope, forecast: seq<ForecastPoint>, k: nat, n: nat)
    requires ValidEnvelope(c) && k <= n <= |forecast|
    ensures Setpoints(c, forecast, n)[..k] == Setpoints(c, forecast, k)
    decreases n
  {
    if k == n {
      assert Setpoints(c, forecast, n)[..n] == Setpoints(c, forecast, n);
    } else {
      SetpointsPrefix(c, forecast, k, n - 1);
      var x := SetpointsExtend(c, forecast, n - 1);
      Prefixes(Setpoints(c, forecast, n - 1), x, k);
    }
  }

  /** The k-th setpoint of a plan against the one before it. */
  lemma {:induction false} StepInPlan(c: Envelope, forecast: seq<ForecastPoint>, n: nat, k: nat)
    requires ValidEnvelope(c) && k < n <= |forecast|
    ensures var s := Setpoints(c, forecast, n);
      Abs(s[k] - Last(s[..k])) <= c.maximumRamp <==> !Cuts(c, forecast, k)
  {
    SetpointsPrefix(c, forecast, k, n);
    SetpointsPrefix(c, forecast, k + 1, n);
    var x := SetpointsExtend(c, forecast, k);
    assert Setpoints(c, forecast, n)[k] == Setpoints(c, forecast, n)[..k + 1][k] == x;
    CutsIff(c, forecast, k, x);
  }

  /** A plan keeps the ramp limit throughout exactly when no such interval occurs. */
  lemma {:induction false} PlanKeepsRampIff(c: Envelope, forecast: seq<ForecastPoint>, n: nat)
    requires ValidEnvelope(c) && n <= |forecast|
    ensures RampKept(c, Setpoints(c, forecast, n)) <==> forall k | 0 <= k < n :: !Cuts(c, forecast, k)
  {
    var s := Setpoints(c, forecast, n);
    forall k | 0 <= k < n
      ensures Abs(s[k] - Last(s[..k])) <= c.maximumRamp <==> !Cuts(c, forecast, k)
    {
      StepInPlan(c, forecast, n, k);
    }
  }

  lemma PlannedInRange(c: Envelope, forecast: seq<ForecastPoint>, n: nat)
    requires ValidEnvelope(c) && n <= |forecast|
    ensures var s := Setpoints(c, forecast, n);
      Within(c.minimumCharge, Charge(c, s), c.maximumCharge) && Within(c.minimumPower, Last(s), c.maximumPower)
  {
    PlannedIsSafe(c, forecast, n);
    var s := Setpoints(c, forecast, n);
    assert s[..|s|] == s;
  }

  /** A ramp that spans the power range is always kept. */
  lemma {:induction false} WideRampIsKept(c: Envelope, forecast: seq<ForecastPoint>, n: nat)
    requires ValidEnvelope(c) && n <= |forecast|
    requires c.maximumPower <= c.maximumRamp && -c.minimumPower <= c.maximumRamp
    ensures RampKept(c, Setpoints(c, forecast, n))
  {
    PlanKeepsRampIff(c, forecast, n);
    forall k | 0 <= k < n
      ensures !Cuts(c, forecast, k)
    {
      PlannedInRange(c, forecast, k);
    }
  }

  /** Charging at 4 kW with a ramp of 2 kW into a nearly full battery: the next setpoint is 0, a jump of 4. */
  lemma RampBroken() returns (forecast: seq<ForecastPoint>, c: Envelope)
    ensures |forecast| == 3 && ValidInput(forecast, c) && Confident(forecast, c)
    ensures Setpoints(c, forecast, 3) == [2.0, 4.0, 0.0]
    ensures c.maximumRamp == 2.0 && Abs(0.0 - 4.0) == 2.0 * c.maximumRamp
  {
    var surplus := ForecastPoint(0.0, 10.0, 0.9);
    forecast := [surplus, surplus, surplus];
    c := Envelope(-10.0, 10.0, 2.0, 0.0, 1.0, 0.5, 16.0, 1.0);
    assert Setpoint(c, 0.5, 0.0, surplus) == 2.0;
    SetpointsStep(c, forecast, [], 0.5, 0.0);
    assert Setpoint(c, 0.625, 2.0, surplus) == 4.0;
    SetpointsStep(c, forecast, [2.0], 0.625, 2.0);
    assert [2.0] + [4.0] == [2.0, 4.0];
    assert Setpoint(c, 0.875, 4.0, surplus) == 0.0;
    SetpointsStep(c, forecast, [2.0, 4.0], 0.875, 4.0);
    assert [2.0, 4.0] + [0.0] == [2.0, 4.0, 0.0];
  }
}
