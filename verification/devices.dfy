/**
 Storage devices and what a charge/discharge plan means for them, independent of how
 the optimisation problem is written down: the running state of charge, the
 feasibility of a plan for a battery and for an electric vehicle, and the money a
 plan costs. A plan for a horizon of T steps is two sequences of length T, the
 charging and the discharging decisions; the solver gives them values 0 or 1.
 */
module Devices {

  /** A plain battery, or an electric vehicle that must leave fully charged. */
  datatype Kind = Battery | Vehicle

  /** The static parameters of one device. */
  datatype Device = Device(
    kind: Kind,
    capacity: real,
    chargeRate: real,
    initialCharge: real,
    degradationCost: real)

  /** Net activity over the first `n` steps: charges minus discharges. */
  function NetFlow(c: seq<real>, d: seq<real>, n: nat): real
    requires n <= |c| && n <= |d|
  {
    if n == 0 then 0.0 else NetFlow(c, d, n - 1) + (c[n - 1] - d[n - 1])
  }

  /** State of charge after the first `n` steps. */
  function Level(dev: Device, c: seq<real>, d: seq<real>, n: nat): real
    requires n <= |c| && n <= |d|
  {
    dev.initialCharge + NetFlow(c, d, n)
  }

  /** The state of charge lies in [0, capacity] after each of the prefixes of length
      below `n`. */
  predicate LevelsWithin(dev: Device, c: seq<real>, d: seq<real>, n: nat)
    requires n <= |c| + 1 && n <= |d| + 1
  {
    forall m :: 0 <= m < n ==> 0.0 <= Level(dev, c, d, m) <= dev.capacity
  }

  lemma LevelsWithinStep(dev: Device, c: seq<real>, d: seq<real>, n: nat)
    requires 0 < n <= |c| + 1 && n <= |d| + 1
    ensures LevelsWithin(dev, c, d, n) <==>
      LevelsWithin(dev, c, d, n - 1) && 0.0 <= Level(dev, c, d, n - 1) <= dev.capacity
  {
  }

  /** The state of charge lies in [0, capacity] after every prefix, the empty one
      (the initial charge) and the whole horizon included. */
  predicate WithinCapacity(dev: Device, c: seq<real>, d: seq<real>)
    requires |c| == |d|
  {
    LevelsWithin(dev, c, d, |c| + 1)
  }

  predicate BatteryFeasible(dev: Device, c: seq<real>, d: seq<real>) {
    |c| == |d| && WithinCapacity(dev, c, d)
  }

  /** A battery-feasible plan that ends exactly at capacity. */
  predicate VehicleFeasible(dev: Device, c: seq<real>, d: seq<real>) {
    BatteryFeasible(dev, c, d) && Level(dev, c, d, |c|) == dev.capacity
  }

  predicate Feasible(dev: Device, c: seq<real>, d: seq<real>) {
    match dev.kind
    case Battery => BatteryFeasible(dev, c, d)
    case Vehicle => VehicleFeasible(dev, c, d)
  }

  /** Every decision is at most 1. */
  predicate AtMostOne(s: seq<real>) {
    forall t :: 0 <= t < |s| ==> s[t] <= 1.0
  }

  /** Every decision is 0 or 1. */
  predicate Bits(s: seq<real>) {
    forall t :: 0 <= t < |s| ==> s[t] == 0.0 || s[t] == 1.0
  }

  function Sum(s: seq<real>): real
    decreases |s|
  {
    if |s| == 0 then 0.0 else Sum(s[..|s| - 1]) + s[|s| - 1]
  }

  /** The number of steps whose decision is 1. */
  function Count(s: seq<real>): nat
    decreases |s|
  {
    if |s| == 0 then 0 else Count(s[..|s| - 1]) + (if s[|s| - 1] == 1.0 then 1 else 0)
  }

  /** Total charge/discharge activity, the quantity the degradation cost is charged on. */
  function Activity(c: seq<real>, d: seq<real>): real {
    Sum(c) + Sum(d)
  }

  /** What the decisions `s` of the first `n` steps would cost at the tariff if each
      were paid in full. */
  function Bill(tariff: seq<real>, rate: real, s: seq<real>, n: nat): real
    requires n <= |tariff| && n <= |s|
  {
    if n == 0 then 0.0 else Bill(tariff, rate, s, n - 1) + tariff[n - 1] * rate * s[n - 1]
  }

  /** What the first `n` steps of a plan cost at the tariff: each step pays for its
      charging and is credited, at the net-metering rate, for its discharging. */
  function NetBill(tariff: seq<real>, rate: real, netMeteringRate: real, c: seq<real>, d: seq<real>, n: nat): real
    requires n <= |tariff| && n <= |c| && n <= |d|
  {
    if n == 0 then 0.0
    else NetBill(tariff, rate, netMeteringRate, c, d, n - 1) + tariff[n - 1] * rate * (c[n - 1] - netMeteringRate * d[n - 1])
  }

  /** The fraction of the tariff credited for exported energy. */
  function NetMeteringRate(depreciation: real): (r: real)
    ensures depreciation == 1.0 ==> r == 0.0
    ensures depreciation == 0.0 ==> r == 1.0
    ensures 0.0 <= depreciation <= 1.0 ==> 0.0 <= r <= 1.0
  {
    1.0 - depreciation
  }

  /** The cost of a plan: the tariff paid for charging, less the net-metering credit
      for discharging, plus the degradation penalty on all activity. */
  function DeviceCost(dev: Device, tariff: seq<real>, netMeteringRate: real, c: seq<real>, d: seq<real>): real
    requires |c| == |d| <= |tariff|
  {
    NetBill(tariff, dev.chargeRate, netMeteringRate, c, d, |c|) + dev.degradationCost * Activity(c, d)
  }

  // ---------------------------------------------------------------------------
  // Properties of the reference definitions

  /** The prefix of length 0 pins the initial charge itself to [0, capacity]. */
  lemma FeasibleStartsWithinCapacity(dev: Device, c: seq<real>, d: seq<real>)
    requires BatteryFeasible(dev, c, d)
    ensures 0.0 <= dev.initialCharge <= dev.capacity
  {
    assert Level(dev, c, d, 0) == dev.initialCharge;
  }

  /** For 0/1 decisions the sum is the number of ones. */
  lemma {:induction false} SumOfBitsIsCount(s: seq<real>)
    requires Bits(s)
    ensures Sum(s) == Count(s) as real
    decreases |s|
  {
    if |s| > 0 {
      SumOfBitsIsCount(s[..|s| - 1]);
    }
  }

  lemma {:induction false} SumNonNegative(s: seq<real>)
    requires forall t :: 0 <= t < |s| ==> 0.0 <= s[t]
    ensures 0.0 <= Sum(s)
    decreases |s|
  {
    if |s| > 0 {
      SumNonNegative(s[..|s| - 1]);
    }
  }

  /** For 0/1 decisions the degradation penalty is the degradation cost times the
      number of charging steps plus the number of discharging steps, and it is never
      negative when the degradation cost is not. */
  lemma DegradationPenalty(dev: Device, c: seq<real>, d: seq<real>)
    requires Bits(c) && Bits(d)
    ensures dev.degradationCost * Activity(c, d) == dev.degradationCost * (Count(c) + Count(d)) as real
    ensures dev.degradationCost >= 0.0 ==> dev.degradationCost * Activity(c, d) >= 0.0
  {
    SumOfBitsIsCount(c);
    SumOfBitsIsCount(d);
  }

  /** A higher degradation cost never lowers the penalty of the same plan. */
  lemma DegradationPenaltyMonotone(lo: real, hi: real, c: seq<real>, d: seq<real>)
    requires lo <= hi
    requires forall t :: 0 <= t < |c| ==> 0.0 <= c[t]
    requires forall t :: 0 <= t < |d| ==> 0.0 <= d[t]
    ensures lo * Activity(c, d) <= hi * Activity(c, d)
  {
    SumNonNegative(c);
    SumNonNegative(d);
  }

  /** The tariff part of the first `n` steps is the full bill for charging minus the
      net-metering rate times the full bill for discharging. */
  predicate BillSplits(tariff: seq<real>, rate: real, netMeteringRate: real, c: seq<real>, d: seq<real>, n: nat)
    requires n <= |tariff| && n <= |c| && n <= |d|
  {
    NetBill(tariff, rate, netMeteringRate, c, d, n) == Bill(tariff, rate, c, n) - netMeteringRate * Bill(tariff, rate, d, n)
  }

  lemma {:induction false} NetBillSplits(tariff: seq<real>, rate: real, netMeteringRate: real, c: seq<real>, d: seq<real>, n: nat)
    requires n <= |tariff| && n <= |c| && n <= |d|
    ensures BillSplits(tariff, rate, netMeteringRate, c, d, n)
    decreases n
  {
    if n > 0 {
      NetBillSplits(tariff, rate, netMeteringRate, c, d, n - 1);
      BillSplitsStep(tariff, rate, netMeteringRate, c, d, n);
    }
  }

  lemma BillSplitsStep(tariff: seq<real>, rate: real, netMeteringRate: real, c: seq<real>, d: seq<real>, n: nat)
    requires 0 < n <= |tariff| && n <= |c| && n <= |d|
    requires BillSplits(tariff, rate, netMeteringRate, c, d, n - 1)
    ensures BillSplits(tariff, rate, netMeteringRate, c, d, n)
  {
    CreditDistributes(Bill(tariff, rate, c, n - 1), Bill(tariff, rate, d, n - 1), netMeteringRate,
      tariff[n - 1] * rate, c[n - 1], d[n - 1], NetBill(tariff, rate, netMeteringRate, c, d, n),
      Bill(tariff, rate, c, n), Bill(tariff, rate, d, n));
  }

  /** Regrouping one step's tariff term into the running charge and credit totals. */
  lemma CreditDistributes(a: real, b: real, rate: real, p: real, c: real, d: real, total: real, charged: real, credited: real)
    requires total == (a - rate * b) + p * (c - rate * d)
    requires charged == a + p * c && credited == b + p * d
    ensures total == charged - rate * credited
  {
  }

  /** With full depreciation (net-metering rate 0) discharging earns nothing: the
      cost does not depend on the discharging decisions beyond their degradation. */
  lemma NoCreditWhenFullyDepreciated(dev: Device, tariff: seq<real>, c: seq<real>, d: seq<real>, d': seq<real>)
    requires |c| == |d| == |d'| <= |tariff|
    ensures DeviceCost(dev, tariff, NetMeteringRate(1.0), c, d) - dev.degradationCost * Activity(c, d)
         == DeviceCost(dev, tariff, NetMeteringRate(1.0), c, d') - dev.degradationCost * Activity(c, d')
         == Bill(tariff, dev.chargeRate, c, |c|)
  {
    NetBillSplits(tariff, dev.chargeRate, NetMeteringRate(1.0), c, d, |c|);
    NetBillSplits(tariff, dev.chargeRate, NetMeteringRate(1.0), c, d', |c|);
  }

  /** Each step's decisions change the state of charge by at most one unit up and
      one unit down, so after `n` steps of 0/1 decisions the level is within `n` of
      the initial charge. */
  lemma {:induction false} LevelWithinSteps(dev: Device, c: seq<real>, d: seq<real>, n: nat)
    requires n <= |c| && n <= |d|
    requires Bits(c) && Bits(d)
    ensures dev.initialCharge - n as real <= Level(dev, c, d, n) <= dev.initialCharge + n as real
  {
    if n > 0 {
      LevelWithinSteps(dev, c, d, n - 1);
    }
  }

  /** A vehicle that cannot gain enough charge within the horizon has no feasible
      0/1 plan, however the steps are chosen. */
  lemma VehicleUnreachable(dev: Device, c: seq<real>, d: seq<real>)
    requires Bits(c) && Bits(d) && |c| == |d|
    requires dev.initialCharge + |c| as real < dev.capacity
    ensures !VehicleFeasible(dev, c, d)
  {
    LevelWithinSteps(dev, c, d, |c|);
  }

  /** Raising the charging and the discharging decision of one step by the same
      amount leaves every level unchanged. */
  lemma {:induction false} SimultaneousFlowsKeepLevels(dev: Device, c: seq<real>, d: seq<real>, t: nat, k: real, n: nat)
    requires t < |c| && t < |d| && n <= |c| && n <= |d|
    ensures Level(dev, c[t := c[t] + k], d[t := d[t] + k], n) == Level(dev, c, d, n)
  {
    if n > 0 {
      SimultaneousFlowsKeepLevels(dev, c, d, t, k, n - 1);
    }
  }

  /** Charging and discharging in the same step is not excluded: switching both on in
      an idle step of a feasible plan keeps it feasible. */
  lemma SimultaneousFlowsStayFeasible(dev: Device, c: seq<real>, d: seq<real>, t: nat)
    requires Feasible(dev, c, d)
    requires t < |c| && c[t] == 0.0 && d[t] == 0.0
    ensures Feasible(dev, c[t := 1.0], d[t := 1.0])
    ensures Bits(c) && Bits(d) ==> Bits(c[t := 1.0]) && Bits(d[t := 1.0])
  {
    var c', d' := c[t := 1.0], d[t := 1.0];
    assert c' == c[t := c[t] + 1.0] && d' == d[t := d[t] + 1.0];
    forall n | 0 <= n <= |c'|
      ensures Level(dev, c', d', n) == Level(dev, c, d, n)
    {
      SimultaneousFlowsKeepLevels(dev, c, d, t, 1.0, n);
    }
  }
}
