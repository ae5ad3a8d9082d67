/**
 A storage device registered with a scheduler, and the part of the optimisation
 problem it contributes: its 0/1 decision variables, its feasibility constraints, its
 cost expression and, after a solve, its charge/discharge schedule. The expressions
 are built the way the program builds them; the lemmas give their meaning over an
 assignment in terms of the reference definitions of the Devices module.
 */
module Storage {
  import opened Wrappers
  import opened Linear
  import opened Devices

  /** A device bound to a scheduler: its parameters, the index that prefixes its
      variable names, and the scheduler's horizon. */
  datatype Registered = Registered(device: Device, prefix: nat, horizon: nat)

  function ChargeVar(r: Registered, t: nat): Var {
    Var(Charge, r.prefix, t)
  }

  function DischargeVar(r: Registered, t: nat): Var {
    Var(Discharge, r.prefix, t)
  }

  /** The charging variables `C_<prefix>_<t>`, one per step. */
  function Charging(r: Registered): (vs: seq<LpVar>)
    ensures |vs| == r.horizon
  {
    seq(r.horizon, t requires 0 <= t < r.horizon => BooleanVariable(ChargeVar(r, t)))
  }

  /** The discharging variables `D_<prefix>_<t>`, one per step. */
  function Discharging(r: Registered): (vs: seq<LpVar>)
    ensures |vs| == r.horizon
  {
    seq(r.horizon, t requires 0 <= t < r.horizon => BooleanVariable(DischargeVar(r, t)))
  }

  /** Binds a device to a scheduler with horizon `horizon` under index `prefix`. */
  function Register(dev: Device, horizon: nat, prefix: nat): (r: Registered)
    ensures r.device == dev
    ensures |Charging(r)| == |Discharging(r)| == horizon
    ensures forall t :: 0 <= t < horizon ==>
      Charging(r)[t].name == Var(Charge, prefix, t) && Discharging(r)[t].name == Var(Discharge, prefix, t)
  {
    Registered(dev, prefix, horizon)
  }

  /** All variables a registration allocates. */
  function Variables(r: Registered): seq<LpVar> {
    Charging(r) + Discharging(r)
  }

  /** Registration allocates 2T variables, each a 0/1 variable, no two with the same
      name, all carrying the device's prefix. */
  lemma RegisterAllocatesDistinctBooleans(dev: Device, horizon: nat, prefix: nat, k: nat, r: real)
    requires k < 2 * horizon
    ensures |Variables(Register(dev, horizon, prefix))| == 2 * horizon
    ensures Variables(Register(dev, horizon, prefix))[k].name.device == prefix
    ensures Admits(Variables(Register(dev, horizon, prefix))[k], r) <==> (r == 0.0 || r == 1.0)
    ensures forall j :: 0 <= j < 2 * horizon && j != k ==>
      Variables(Register(dev, horizon, prefix))[j].name != Variables(Register(dev, horizon, prefix))[k].name
  {
    var vs := Variables(Register(dev, horizon, prefix));
    BooleanVariableAdmitsBits(vs[k].name, r);
  }

  /** The values an assignment gives to a list of variables. */
  function ValuesOf(vs: seq<LpVar>, x: Assignment): (s: seq<real>)
    ensures |s| == |vs|
    ensures forall k :: 0 <= k < |vs| ==> s[k] == x(vs[k].name)
  {
    seq(|vs|, k requires 0 <= k < |vs| => x(vs[k].name))
  }

  /** The values an assignment gives to the charging variables. */
  function ChargingValues(r: Registered, x: Assignment): (c: seq<real>)
    ensures |c| == r.horizon
    ensures forall t :: 0 <= t < r.horizon ==> c[t] == x(ChargeVar(r, t))
  {
    ValuesOf(Charging(r), x)
  }

  /** The values an assignment gives to the discharging variables. */
  function DischargingValues(r: Registered, x: Assignment): (d: seq<real>)
    ensures |d| == r.horizon
    ensures forall t :: 0 <= t < r.horizon ==> d[t] == x(DischargeVar(r, t))
  {
    ValuesOf(Discharging(r), x)
  }

  /** An assignment gives every variable of the registration a value its declaration admits. */
  predicate RespectsDeclarations(r: Registered, x: Assignment) {
    forall k :: 0 <= k < |Variables(r)| ==> Admits(Variables(r)[k], x(Variables(r)[k].name))
  }

  lemma DeclaredValuesAreBits(r: Registered, x: Assignment)
    requires RespectsDeclarations(r, x)
    ensures Bits(ChargingValues(r, x)) && Bits(DischargingValues(r, x))
  {
    var vs := Variables(r);
    forall t | 0 <= t < r.horizon
      ensures ChargingValues(r, x)[t] == 0.0 || ChargingValues(r, x)[t] == 1.0
      ensures DischargingValues(r, x)[t] == 0.0 || DischargingValues(r, x)[t] == 1.0
    {
      assert vs[t] == BooleanVariable(ChargeVar(r, t));
      BooleanVariableAdmitsBits(ChargeVar(r, t), x(ChargeVar(r, t)));
      assert vs[r.horizon + t] == BooleanVariable(DischargeVar(r, t));
      BooleanVariableAdmitsBits(DischargeVar(r, t), x(DischargeVar(r, t)));
    }
  }

  // ---------------------------------------------------------------------------
  // State of charge

  /** The per-step terms `charging[t] - discharging[t]` for `t` below `n`. */
  function NetSteps(r: Registered, n: nat): (es: seq<Expr>)
    requires n <= r.horizon
    ensures |es| == n
  {
    seq(n, t requires 0 <= t < n => Minus(Ref(Charging(r)[t].name), Ref(Discharging(r)[t].name)))
  }

  lemma {:induction false} NetStepsMeaning(r: Registered, n: nat, x: Assignment)
    requires n <= r.horizon
    ensures SumEvals(NetSteps(r, n), x) == NetFlow(ChargingValues(r, x), DischargingValues(r, x), n)
  {
    if n > 0 {
      assert NetSteps(r, n)[..n - 1] == NetSteps(r, n - 1);
      NetStepsMeaning(r, n - 1, x);
    }
  }

  /** The state of charge after the first `n` steps, as an expression: the initial
      charge plus the net activity of those steps. */
  function CurrentCharge(r: Registered, n: nat): (e: Expr)
    requires n <= r.horizon
    ensures forall x {:trigger Eval(e, x)} :: Eval(e, x) == Level(r.device, ChargingValues(r, x), DischargingValues(r, x), n)
  {
    var e := Add(Num(r.device.initialCharge), LpSum(NetSteps(r, n)));
    assert forall x :: Eval(e, x) == Level(r.device, ChargingValues(r, x), DischargingValues(r, x), n) by {
      forall x ensures Eval(e, x) == Level(r.device, ChargingValues(r, x), DischargingValues(r, x), n) {
        NetStepsMeaning(r, n, x);
        EvalLpSum(NetSteps(r, n), x);
      }
    }
    e
  }

  /** The state of charge at the end of the horizon, as an expression. */
  function FinalCharge(r: Registered): (e: Expr)
    ensures forall x {:trigger Eval(e, x)} :: Eval(e, x) == Level(r.device, ChargingValues(r, x), DischargingValues(r, x), r.horizon)
  {
    var e := Add(Num(r.device.initialCharge), LpSum(NetSteps(r, r.horizon)));
    assert forall x :: Eval(e, x) == Level(r.device, ChargingValues(r, x), DischargingValues(r, x), r.horizon) by {
      forall x ensures Eval(e, x) == Level(r.device, ChargingValues(r, x), DischargingValues(r, x), r.horizon) {
        NetStepsMeaning(r, r.horizon, x);
        EvalLpSum(NetSteps(r, r.horizon), x);
      }
    }
    e
  }

  // ---------------------------------------------------------------------------
  // Constraints

  /** The list `[0 <= v <= 1 for v in vs]`. The chained comparison evaluates to its
      second comparison, so each entry is the upper bound `v <= 1`; the lower bound 0
      is part of each variable's declaration. */
  function UnitBounds(vs: seq<LpVar>): (cs: seq<Constraint>)
    ensures |cs| == |vs|
  {
    seq(|vs|, k requires 0 <= k < |vs| => AtMost(Ref(vs[k].name), 1.0))
  }

  lemma UnitBoundsMeaning(vs: seq<LpVar>, x: Assignment)
    ensures AllHold(UnitBounds(vs), x) <==> forall k :: 0 <= k < |vs| ==> x(vs[k].name) <= 1.0
  {
    if AllHold(UnitBounds(vs), x) {
      forall k | 0 <= k < |vs| ensures x(vs[k].name) <= 1.0 {
        assert Holds(UnitBounds(vs)[k], x);
      }
    }
  }

  /** For each prefix length below `n`: the state of charge is at least 0, and it is
      at most the capacity. */
  function PrefixBounds(r: Registered, n: nat): (cs: seq<Constraint>)
    requires n <= r.horizon + 1
    ensures |cs| == 2 * n
  {
    if n == 0 then []
    else
      PrefixBounds(r, n - 1)
      + [AtLeast(CurrentCharge(r, n - 1), 0.0), AtMost(CurrentCharge(r, n - 1), r.device.capacity)]
  }

  lemma PrefixBoundsStep(r: Registered, n: nat, x: Assignment)
    requires 0 < n <= r.horizon + 1
    ensures AllHold(PrefixBounds(r, n), x) <==>
      AllHold(PrefixBounds(r, n - 1), x)
      && 0.0 <= Level(r.device, ChargingValues(r, x), DischargingValues(r, x), n - 1) <= r.device.capacity
  {
    var lo := AtLeast(CurrentCharge(r, n - 1), 0.0);
    var hi := AtMost(CurrentCharge(r, n - 1), r.device.capacity);
    assert PrefixBounds(r, n) == PrefixBounds(r, n - 1) + [lo, hi];
    AllHoldAppend(PrefixBounds(r, n - 1), [lo, hi], x);
    assert AllHold([lo, hi], x) <==> Holds(lo, x) && Holds(hi, x) by {
      assert [lo, hi][0] == lo && [lo, hi][1] == hi;
    }
  }

  lemma {:induction false} PrefixBoundsMeaning(r: Registered, n: nat, x: Assignment)
    requires n <= r.horizon + 1
    ensures AllHold(PrefixBounds(r, n), x) <==>
      LevelsWithin(r.device, ChargingValues(r, x), DischargingValues(r, x), n)
  {
    if n > 0 {
      PrefixBoundsStep(r, n, x);
      PrefixBoundsMeaning(r, n - 1, x);
      LevelsWithinStep(r.device, ChargingValues(r, x), DischargingValues(r, x), n);
    }
  }

  /** The constraints of a plain battery: the unit bounds of its variables, then the
      two bounds on the state of charge for every prefix length from 0 to T. */
  function BatteryConstraints(r: Registered): (cs: seq<Constraint>)
    ensures |cs| == 2 * r.horizon + 2 * (r.horizon + 1)
  {
    UnitBounds(Charging(r)) + UnitBounds(Discharging(r)) + PrefixBounds(r, r.horizon + 1)
  }

  /** The device's constraints: a vehicle adds, after the battery's, that the final
      state of charge equals the capacity. */
  function Constraints(r: Registered): (cs: seq<Constraint>)
    ensures |cs| == |BatteryConstraints(r)| + (if r.device.kind == Vehicle then 1 else 0)
    ensures cs[..|BatteryConstraints(r)|] == BatteryConstraints(r)
  {
    match r.device.kind
    case Battery => BatteryConstraints(r)
    case Vehicle => BatteryConstraints(r) + [Exactly(FinalCharge(r), r.device.capacity)]
  }

  lemma UnitBoundsOfValues(r: Registered, x: Assignment)
    ensures AllHold(UnitBounds(Charging(r)), x) <==> AtMostOne(ChargingValues(r, x))
    ensures AllHold(UnitBounds(Discharging(r)), x) <==> AtMostOne(DischargingValues(r, x))
  {
    UnitBoundsMeaning(Charging(r), x);
    UnitBoundsMeaning(Discharging(r), x);
    var c, d := ChargingValues(r, x), DischargingValues(r, x);
    assert forall k :: 0 <= k < r.horizon ==> x(Charging(r)[k].name) == c[k];
    assert forall k :: 0 <= k < r.horizon ==> x(Discharging(r)[k].name) == d[k];
  }

  lemma BatteryConstraintsParts(r: Registered, x: Assignment)
    ensures AllHold(BatteryConstraints(r), x) <==>
      AllHold(UnitBounds(Charging(r)), x) && AllHold(UnitBounds(Discharging(r)), x)
      && AllHold(PrefixBounds(r, r.horizon + 1), x)
  {
    AllHoldAppend(UnitBounds(Charging(r)) + UnitBounds(Discharging(r)), PrefixBounds(r, r.horizon + 1), x);
    AllHoldAppend(UnitBounds(Charging(r)), UnitBounds(Discharging(r)), x);
  }

  lemma BatteryConstraintsMeaning(r: Registered, x: Assignment)
    ensures AllHold(BatteryConstraints(r), x) <==>
      AtMostOne(ChargingValues(r, x)) && AtMostOne(DischargingValues(r, x))
      && BatteryFeasible(r.device, ChargingValues(r, x), DischargingValues(r, x))
  {
    BatteryConstraintsParts(r, x);
    UnitBoundsOfValues(r, x);
    PrefixBoundsMeaning(r, r.horizon + 1, x);
  }

  /** A vehicle's constraints are the battery constraints and the final equality. */
  lemma VehicleConstraintsParts(r: Registered, x: Assignment)
    requires r.device.kind == Vehicle
    ensures AllHold(Constraints(r), x) <==>
      AllHold(BatteryConstraints(r), x)
      && Level(r.device, ChargingValues(r, x), DischargingValues(r, x), r.horizon) == r.device.capacity
  {
    var e := Exactly(FinalCharge(r), r.device.capacity);
    assert Constraints(r) == BatteryConstraints(r) + [e];
    AllHoldAppend(BatteryConstraints(r), [e], x);
    assert AllHold([e], x) <==> Holds(e, x) by { assert [e][0] == e; }
  }

  /** The device's constraints hold under an assignment exactly when its decisions
      are at most 1 and the plan is feasible for its kind: the state of charge stays
      in [0, capacity] after every prefix, and a vehicle ends at capacity. */
  lemma ConstraintsMeaning(r: Registered, x: Assignment)
    ensures AllHold(Constraints(r), x) <==>
      AtMostOne(ChargingValues(r, x)) && AtMostOne(DischargingValues(r, x))
      && Feasible(r.device, ChargingValues(r, x), DischargingValues(r, x))
  {
    BatteryConstraintsMeaning(r, x);
    if r.device.kind == Vehicle {
      VehicleConstraintsParts(r, x);
    }
  }

  /** For values the variable declarations admit (0 or 1), the constraints hold
      exactly when the plan is feasible. */
  lemma DeclaredConstraintsMeaning(r: Registered, x: Assignment)
    requires RespectsDeclarations(r, x)
    ensures Bits(ChargingValues(r, x)) && Bits(DischargingValues(r, x))
    ensures AllHold(Constraints(r), x) <==> Feasible(r.device, ChargingValues(r, x), DischargingValues(r, x))
  {
    DeclaredValuesAreBits(r, x);
    ConstraintsMeaning(r, x);
  }

  /** A vehicle's constraints are the battery's plus one: whatever satisfies the
      vehicle's satisfies the same device's constraints as a battery. */
  lemma VehicleConstraintsImplyBattery(r: Registered, x: Assignment)
    requires r.device.kind == Vehicle
    requires AllHold(Constraints(r), x)
    ensures AllHold(Constraints(r.(device := r.device.(kind := Battery))), x)
    ensures Level(r.device, ChargingValues(r, x), DischargingValues(r, x), r.horizon) == r.device.capacity
  {
    var b := r.(device := r.device.(kind := Battery));
    VehicleConstraintsParts(r, x);
    assert BatteryConstraints(b) == BatteryConstraints(r) by {
      assert Charging(b) == Charging(r) && Discharging(b) == Discharging(r);
      PrefixBoundsSameForKinds(r, b, r.horizon + 1);
    }
  }

  lemma {:induction false} PrefixBoundsSameForKinds(r: Registered, b: Registered, n: nat)
    requires b == r.(device := r.device.(kind := b.device.kind))
    requires n <= r.horizon + 1
    ensures PrefixBounds(b, n) == PrefixBounds(r, n)
  {
    if n > 0 {
      PrefixBoundsSameForKinds(r, b, n - 1);
      assert NetSteps(b, n - 1) == NetSteps(r, n - 1);
    }
  }

  /** The vehicle's equality on the final charge implies the battery's upper bound at
      prefix length T, which sits at the last position of the battery constraints. */
  lemma FinalEqualityImpliesLastUpperBound(r: Registered, x: Assignment)
    requires Holds(Exactly(FinalCharge(r), r.device.capacity), x)
    ensures BatteryConstraints(r)[|BatteryConstraints(r)| - 1] == AtMost(CurrentCharge(r, r.horizon), r.device.capacity)
    ensures Holds(BatteryConstraints(r)[|BatteryConstraints(r)| - 1], x)
  {
    var u := UnitBounds(Charging(r)) + UnitBounds(Discharging(r));
    var p := PrefixBounds(r, r.horizon + 1);
    assert BatteryConstraints(r)[|BatteryConstraints(r)| - 1] == p[|p| - 1];
  }

  // ---------------------------------------------------------------------------
  // Cost

  /** The list of the variables `vs`, each as an expression. */
  function Refs(vs: seq<LpVar>): (es: seq<Expr>)
    ensures |es| == |vs|
  {
    seq(|vs|, k requires 0 <= k < |vs| => Ref(vs[k].name))
  }

  /** `lpSum(vs)`: the sum of a list of variables. */
  function SumOfVars(vs: seq<LpVar>): Expr {
    LpSum(Refs(vs))
  }

  lemma {:induction false} SumOfRefs(vs: seq<LpVar>, x: Assignment)
    ensures SumEvals(Refs(vs), x) == Sum(ValuesOf(vs, x))
    decreases |vs|
  {
    if |vs| > 0 {
      var vs' := vs[..|vs| - 1];
      assert Refs(vs)[..|vs| - 1] == Refs(vs');
      assert ValuesOf(vs, x)[..|vs| - 1] == ValuesOf(vs', x);
      SumOfRefs(vs', x);
    }
  }

  lemma SumOfVarsMeaning(vs: seq<LpVar>, x: Assignment)
    ensures Eval(SumOfVars(vs), x) == Sum(ValuesOf(vs, x))
  {
    EvalLpSum(Refs(vs), x);
    SumOfRefs(vs, x);
  }

  lemma UsageCostMeaning(r: Registered, x: Assignment)
    ensures Eval(Times(r.device.degradationCost, Add(SumOfVars(Charging(r)), SumOfVars(Discharging(r)))), x)
         == r.device.degradationCost * Activity(ChargingValues(r, x), DischargingValues(r, x))
  {
    var a, b := SumOfVars(Charging(r)), SumOfVars(Discharging(r));
    SumOfVarsMeaning(Charging(r), x);
    SumOfVarsMeaning(Discharging(r), x);
    assert Eval(a, x) == Sum(ChargingValues(r, x));
    assert Eval(b, x) == Sum(DischargingValues(r, x));
    assert Eval(Add(a, b), x) == Activity(ChargingValues(r, x), DischargingValues(r, x));
  }

  /** The degradation penalty: the degradation cost times the number of charging
      plus discharging decisions taken. */
  function UsageCost(r: Registered): (e: Expr)
    ensures forall x {:trigger Eval(e, x)} :: Eval(e, x) == r.device.degradationCost * Activity(ChargingValues(r, x), DischargingValues(r, x))
  {
    var e := Times(r.device.degradationCost, Add(SumOfVars(Charging(r)), SumOfVars(Discharging(r))));
    assert forall x :: Eval(e, x) == r.device.degradationCost * Activity(ChargingValues(r, x), DischargingValues(r, x)) by {
      forall x ensures Eval(e, x) == r.device.degradationCost * Activity(ChargingValues(r, x), DischargingValues(r, x)) {
        UsageCostMeaning(r, x);
      }
    }
    e
  }

  /** The per-step terms `tariffRates[t] * chargeRate * (charging[t] - netMeteringRate * discharging[t])`. */
  function TariffSteps(r: Registered, tariffRates: seq<real>, netMeteringRate: real, n: nat): (es: seq<Expr>)
    requires n <= r.horizon <= |tariffRates|
    ensures |es| == n
  {
    seq(n, t requires 0 <= t < n =>
      Times(tariffRates[t] * r.device.chargeRate,
        Minus(Ref(Charging(r)[t].name), Times(netMeteringRate, Ref(Discharging(r)[t].name)))))
  }

  lemma TariffStepValue(r: Registered, tariffRates: seq<real>, netMeteringRate: real, n: nat, t: nat, x: Assignment)
    requires t < n <= r.horizon <= |tariffRates|
    ensures Eval(TariffSteps(r, tariffRates, netMeteringRate, n)[t], x)
         == tariffRates[t] * r.device.chargeRate * (x(ChargeVar(r, t)) - netMeteringRate * x(DischargeVar(r, t)))
  {
    var m := Minus(Ref(ChargeVar(r, t)), Times(netMeteringRate, Ref(DischargeVar(r, t))));
    assert TariffSteps(r, tariffRates, netMeteringRate, n)[t] == Times(tariffRates[t] * r.device.chargeRate, m);
    assert Eval(Times(netMeteringRate, Ref(DischargeVar(r, t))), x) == netMeteringRate * x(DischargeVar(r, t));
  }

  lemma TariffStepsPrefix(r: Registered, tariffRates: seq<real>, netMeteringRate: real, n: nat)
    requires 0 < n <= r.horizon <= |tariffRates|
    ensures TariffSteps(r, tariffRates, netMeteringRate, n)[..n - 1] == TariffSteps(r, tariffRates, netMeteringRate, n - 1)
  {
    var es, es' := TariffSteps(r, tariffRates, netMeteringRate, n), TariffSteps(r, tariffRates, netMeteringRate, n - 1);
    forall t | 0 <= t < n - 1 ensures es[t] == es'[t] {
    }
  }

  /** The tariff terms of `n` steps are those of `n - 1` steps and the last step's term. */
  lemma TariffStepsSnoc(r: Registered, tariffRates: seq<real>, netMeteringRate: real, n: nat, x: Assignment)
    requires 0 < n <= r.horizon <= |tariffRates|
    ensures SumEvals(TariffSteps(r, tariffRates, netMeteringRate, n), x)
         == SumEvals(TariffSteps(r, tariffRates, netMeteringRate, n - 1), x)
          + tariffRates[n - 1] * r.device.chargeRate * (x(ChargeVar(r, n - 1)) - netMeteringRate * x(DischargeVar(r, n - 1)))
  {
    TariffStepsPrefix(r, tariffRates, netMeteringRate, n);
    TariffStepValue(r, tariffRates, netMeteringRate, n, n - 1, x);
  }

  /** The first `n` tariff terms sum to what the first `n` steps of the plan cost at
      the tariff. */
  predicate TariffStepsSumToBill(r: Registered, tariffRates: seq<real>, netMeteringRate: real, n: nat, x: Assignment)
    requires n <= r.horizon <= |tariffRates|
  {
    SumEvals(TariffSteps(r, tariffRates, netMeteringRate, n), x)
      == NetBill(tariffRates, r.device.chargeRate, netMeteringRate, ChargingValues(r, x), DischargingValues(r, x), n)
  }

  lemma {:induction false} TariffStepsMeaning(r: Registered, tariffRates: seq<real>, netMeteringRate: real, n: nat, x: Assignment)
    requires n <= r.horizon <= |tariffRates|
    ensures TariffStepsSumToBill(r, tariffRates, netMeteringRate, n, x)
    decreases n
  {
    if n > 0 {
      TariffStepsMeaning(r, tariffRates, netMeteringRate, n - 1, x);
      TariffStepsStep(r, tariffRates, netMeteringRate, n, x);
    }
  }

  /** The induction step from `n - 1` steps to `n`. */
  lemma TariffStepsStep(r: Registered, tariffRates: seq<real>, netMeteringRate: real, n: nat, x: Assignment)
    requires 0 < n <= r.horizon <= |tariffRates|
    requires TariffStepsSumToBill(r, tariffRates, netMeteringRate, n - 1, x)
    ensures TariffStepsSumToBill(r, tariffRates, netMeteringRate, n, x)
  {
    TariffStepsSnoc(r, tariffRates, netMeteringRate, n, x);
  }

  /** The cost attributed to the device: tariff paid for charging, minus the
      net-metering credit for discharging, plus the degradation penalty. */
  function Cost(r: Registered, tariffRates: seq<real>, netMeteringRate: real): (e: Expr)
    requires r.horizon <= |tariffRates|
    ensures forall x {:trigger Eval(e, x)} :: (Eval(e, x)
      == DeviceCost(r.device, tariffRates, netMeteringRate, ChargingValues(r, x), DischargingValues(r, x)))
  {
    var e := Add(LpSum(TariffSteps(r, tariffRates, netMeteringRate, r.horizon)), UsageCost(r));
    assert forall x :: (Eval(e, x)
      == DeviceCost(r.device, tariffRates, netMeteringRate, ChargingValues(r, x), DischargingValues(r, x))) by {
      forall x ensures Eval(e, x)
        == DeviceCost(r.device, tariffRates, netMeteringRate, ChargingValues(r, x), DischargingValues(r, x)) {
        CostExprMeaning(r, tariffRates, netMeteringRate, x);
      }
    }
    e
  }

  lemma CostExprMeaning(r: Registered, tariffRates: seq<real>, netMeteringRate: real, x: Assignment)
    requires r.horizon <= |tariffRates|
    ensures Eval(Add(LpSum(TariffSteps(r, tariffRates, netMeteringRate, r.horizon)), UsageCost(r)), x)
         == DeviceCost(r.device, tariffRates, netMeteringRate, ChargingValues(r, x), DischargingValues(r, x))
  {
    TariffSumMeaning(r, tariffRates, netMeteringRate, x);
  }

  /** The summed tariff terms are what the plan costs at the tariff over the whole
      horizon. */
  lemma TariffSumMeaning(r: Registered, tariffRates: seq<real>, netMeteringRate: real, x: Assignment)
    requires r.horizon <= |tariffRates|
    ensures Eval(LpSum(TariffSteps(r, tariffRates, netMeteringRate, r.horizon)), x)
         == NetBill(tariffRates, r.device.chargeRate, netMeteringRate, ChargingValues(r, x), DischargingValues(r, x), r.horizon)
  {
    TariffStepsMeaning(r, tariffRates, netMeteringRate, r.horizon, x);
    EvalLpSum(TariffSteps(r, tariffRates, netMeteringRate, r.horizon), x);
  }

  // ---------------------------------------------------------------------------
  // Which variables the device's constraints and cost mention

  /** The variables registration `r` allocates: its prefix and a step inside the horizon. */
  predicate Owns(r: Registered, v: Var) {
    v.device == r.prefix && v.step < r.horizon
  }

  lemma NetStepsVars(r: Registered, n: nat, v: Var)
    requires n <= r.horizon
    requires v in VarsOf(LpSum(NetSteps(r, n)))
    ensures Owns(r, v)
  {
    VarsOfLpSum(NetSteps(r, n), v);
    var i :| 0 <= i < n && v in VarsOf(NetSteps(r, n)[i]);
    assert NetSteps(r, n)[i] == Minus(Ref(ChargeVar(r, i)), Ref(DischargeVar(r, i)));
  }

  lemma CurrentChargeVars(r: Registered, n: nat, v: Var)
    requires n <= r.horizon
    requires v in VarsOf(CurrentCharge(r, n))
    ensures Owns(r, v)
  {
    assert CurrentCharge(r, n) == Add(Num(r.device.initialCharge), LpSum(NetSteps(r, n)));
    NetStepsVars(r, n, v);
  }

  lemma {:induction false} PrefixBoundsVars(r: Registered, n: nat, v: Var)
    requires n <= r.horizon + 1
    requires v in ConstraintVars(PrefixBounds(r, n))
    ensures Owns(r, v)
  {
    var lo := AtLeast(CurrentCharge(r, n - 1), 0.0);
    var hi := AtMost(CurrentCharge(r, n - 1), r.device.capacity);
    assert PrefixBounds(r, n) == PrefixBounds(r, n - 1) + [lo, hi];
    ConstraintVarsAppend(PrefixBounds(r, n - 1), [lo, hi]);
    if v in ConstraintVars(PrefixBounds(r, n - 1)) {
      PrefixBoundsVars(r, n - 1, v);
    } else {
      var k :| 0 <= k < 2 && v in VarsOf([lo, hi][k].e);
      assert [lo, hi][k] == lo || [lo, hi][k] == hi;
      CurrentChargeVars(r, n - 1, v);
    }
  }

  lemma UnitBoundsVars(vs: seq<LpVar>, v: Var)
    ensures v in ConstraintVars(UnitBounds(vs)) <==> exists k :: 0 <= k < |vs| && vs[k].name == v
  {
    if v in ConstraintVars(UnitBounds(vs)) {
      var k :| 0 <= k < |vs| && v in VarsOf(UnitBounds(vs)[k].e);
      assert VarsOf(UnitBounds(vs)[k].e) == {vs[k].name};
    }
    if exists k :: 0 <= k < |vs| && vs[k].name == v {
      var k :| 0 <= k < |vs| && vs[k].name == v;
      assert v in VarsOf(UnitBounds(vs)[k].e);
    }
  }

  /** The unit bounds mention exactly the device's variables. */
  lemma UnitBoundsOwned(r: Registered, v: Var)
    ensures v in ConstraintVars(UnitBounds(Charging(r)) + UnitBounds(Discharging(r))) <==> Owns(r, v)
  {
    ConstraintVarsAppend(UnitBounds(Charging(r)), UnitBounds(Discharging(r)));
    UnitBoundsVars(Charging(r), v);
    UnitBoundsVars(Discharging(r), v);
    if Owns(r, v) {
      if v.flow == Charge {
        assert Charging(r)[v.step].name == v;
      } else {
        assert Discharging(r)[v.step].name == v;
      }
    }
  }

  lemma BatteryConstraintsOwned(r: Registered, v: Var)
    ensures v in ConstraintVars(BatteryConstraints(r)) <==> Owns(r, v)
  {
    var u := UnitBounds(Charging(r)) + UnitBounds(Discharging(r));
    var p := PrefixBounds(r, r.horizon + 1);
    ConstraintVarsAppend(u, p);
    UnitBoundsOwned(r, v);
    if v in ConstraintVars(p) {
      PrefixBoundsVars(r, r.horizon + 1, v);
    }
  }

  /** The device's constraints mention exactly the variables it allocated: every one
      of them (each has its unit bound) and no other. */
  lemma ConstraintVarsOwned(r: Registered, v: Var)
    ensures v in ConstraintVars(Constraints(r)) <==> Owns(r, v)
  {
    BatteryConstraintsOwned(r, v);
    if r.device.kind == Vehicle {
      var e := Exactly(FinalCharge(r), r.device.capacity);
      assert Constraints(r) == BatteryConstraints(r) + [e];
      ConstraintVarsAppend(BatteryConstraints(r), [e]);
      if v in ConstraintVars([e]) {
        var k :| 0 <= k < 1 && v in VarsOf([e][k].e);
        assert [e][k] == e;
        assert v in VarsOf(FinalCharge(r));
        assert FinalCharge(r) == Add(Num(r.device.initialCharge), LpSum(NetSteps(r, r.horizon)));
        assert VarsOf(FinalCharge(r)) == VarsOf(Num(r.device.initialCharge)) + VarsOf(LpSum(NetSteps(r, r.horizon)));
        NetStepsVars(r, r.horizon, v);
      }
    }
  }

  lemma SumOfVarsOwned(r: Registered, vs: seq<LpVar>, v: Var)
    requires vs == Charging(r) || vs == Discharging(r)
    requires v in VarsOf(SumOfVars(vs))
    ensures Owns(r, v)
  {
    VarsOfLpSum(Refs(vs), v);
    var i :| 0 <= i < |vs| && v in VarsOf(Refs(vs)[i]);
    assert Refs(vs)[i] == Ref(vs[i].name);
  }

  /** A step's tariff term mentions only that step's two variables. */
  lemma TariffStepVars(r: Registered, tariffRates: seq<real>, netMeteringRate: real, t: nat)
    requires t < r.horizon <= |tariffRates|
    ensures VarsOf(TariffSteps(r, tariffRates, netMeteringRate, r.horizon)[t]) <= {ChargeVar(r, t), DischargeVar(r, t)}
  {
    var credit := Times(netMeteringRate, Ref(DischargeVar(r, t)));
    var m := Minus(Ref(ChargeVar(r, t)), credit);
    assert TariffSteps(r, tariffRates, netMeteringRate, r.horizon)[t]
        == Times(tariffRates[t] * r.device.chargeRate, m);
    assert VarsOf(credit) <= {DischargeVar(r, t)};
    assert VarsOf(m) == {ChargeVar(r, t)} + VarsOf(credit);
  }

  /** The device's cost mentions only variables the device allocated. */
  lemma CostVarsOwned(r: Registered, tariffRates: seq<real>, netMeteringRate: real, v: Var)
    requires r.horizon <= |tariffRates|
    requires v in VarsOf(Cost(r, tariffRates, netMeteringRate))
    ensures Owns(r, v)
  {
    var steps := TariffSteps(r, tariffRates, netMeteringRate, r.horizon);
    var a, b := SumOfVars(Charging(r)), SumOfVars(Discharging(r));
    assert Cost(r, tariffRates, netMeteringRate) == Add(LpSum(steps), UsageCost(r));
    assert UsageCost(r) == Times(r.device.degradationCost, Add(a, b));
    if v in VarsOf(LpSum(steps)) {
      VarsOfLpSum(steps, v);
      var i :| 0 <= i < |steps| && v in VarsOf(steps[i]);
      TariffStepVars(r, tariffRates, netMeteringRate, i);
    } else if v in VarsOf(a) {
      SumOfVarsOwned(r, Charging(r), v);
    } else {
      assert VarsOf(UsageCost(r)) <= VarsOf(a) + VarsOf(b);
      SumOfVarsOwned(r, Discharging(r), v);
    }
  }

  // ---------------------------------------------------------------------------
  // Schedule

  /** Why a schedule cannot be read: no solve has filled the solution, or the
      solution has no value for one of the device's variables. */
  datatype ScheduleError = EmptySolution | MissingValue

  /** Subtraction in which an undefined operand makes the result undefined. */
  function Difference(a: Option<real>, b: Option<real>): (r: Option<real>)
    ensures r.Some? <==> a.Some? && b.Some?
    ensures r.Some? ==> r.value + b.value == a.value
  {
    if a.Some? && b.Some? then Some(a.value - b.value) else None
  }

  /** Every variable of the device has an entry in the solution. */
  predicate HasValues(r: Registered, solution: map<Var, Option<real>>) {
    forall t :: 0 <= t < r.horizon ==> ChargeVar(r, t) in solution && DischargeVar(r, t) in solution
  }

  /** Per step, the charging value minus the discharging value, read from the solution. */
  function ChargeDischargeSchedule(r: Registered, solution: map<Var, Option<real>>): (res: Result<seq<Option<real>>, ScheduleError>)
    ensures res == Failure(EmptySolution) <==> |solution| == 0
    ensures res == Failure(MissingValue) <==> |solution| != 0 && !HasValues(r, solution)
    ensures res.Success? ==> |res.value| == r.horizon
  {
    if |solution| == 0 then Failure(EmptySolution)
    else if !HasValues(r, solution) then Failure(MissingValue)
    else Success(seq(r.horizon, t requires 0 <= t < r.horizon && HasValues(r, solution) =>
      Difference(solution[ChargeVar(r, t)], solution[DischargeVar(r, t)])))
  }

  /** The solution is not empty and holds assignment `x`'s value for every charging
      and discharging variable of the device. */
  predicate HoldsValues(r: Registered, solution: map<Var, Option<real>>, x: Assignment) {
    && |solution| != 0
    && forall t :: 0 <= t < r.horizon ==>
      && ChargeVar(r, t) in solution && solution[ChargeVar(r, t)] == Some(x(ChargeVar(r, t)))
      && DischargeVar(r, t) in solution && solution[DischargeVar(r, t)] == Some(x(DischargeVar(r, t)))
  }

  /** The schedule can be read against the solution, and at every step it is the
      charging minus the discharging value under assignment `x`. */
  predicate ReadsAs(r: Registered, solution: map<Var, Option<real>>, x: Assignment) {
    && ChargeDischargeSchedule(r, solution).Success?
    && forall t :: 0 <= t < r.horizon ==>
      ChargeDischargeSchedule(r, solution).value[t] == Some(ChargingValues(r, x)[t] - DischargingValues(r, x)[t])
  }

  /** Read against a solution that holds the values of an assignment, the schedule
      is charging minus discharging at every step; for 0/1 values each entry is -1,
      0 or 1. */
  lemma ScheduleOfAssignment(r: Registered, solution: map<Var, Option<real>>, x: Assignment)
    requires HoldsValues(r, solution, x)
    ensures ReadsAs(r, solution, x)
    ensures Bits(ChargingValues(r, x)) && Bits(DischargingValues(r, x)) ==>
      forall t :: 0 <= t < r.horizon ==>
        ChargeDischargeSchedule(r, solution).value[t] in {Some(-1.0), Some(0.0), Some(1.0)}
  {
    assert HasValues(r, solution);
  }

  /** Read against a solution in which every variable of the device is undefined,
      every entry of the schedule is undefined. */
  lemma ScheduleOfUndefined(r: Registered, solution: map<Var, Option<real>>)
    requires |solution| != 0
    requires forall t :: 0 <= t < r.horizon ==>
      ChargeVar(r, t) in solution && solution[ChargeVar(r, t)] == None
      && DischargeVar(r, t) in solution && solution[DischargeVar(r, t)] == None
    ensures ChargeDischargeSchedule(r, solution).Success?
    ensures forall t :: 0 <= t < r.horizon ==> ChargeDischargeSchedule(r, solution).value[t] == None
  {
    assert HasValues(r, solution);
  }
}
