/**
 The residential scheduler: it binds a list of storage devices to a tariff over a
 horizon of T steps, builds one minimisation problem (the household's baseline bill
 plus every device's cost, subject to every device's constraints), hands it to a
 solver, and records what the solver reports. The solver is a parameter: the model
 fixes what the scheduler does with its answer, not how the answer is found.
 */
module Residential {
  import opened Wrappers
  import opened Linear
  import opened Devices
  import opened Storage

  /** A minimisation problem: the objective and the constraints in the order they
      were added. */
  datatype LpProblem = LpProblem(objective: Expr, constraints: seq<Constraint>)

  /** The variables of a problem: those its objective mentions and those its
      constraints mention. */
  function ProblemVars(p: LpProblem): set<Var> {
    VarsOf(p.objective) + ConstraintVars(p.constraints)
  }

  /** What a solver reports: a status, and the value each variable holds after the
      solve (`None` when it holds none). */
  datatype Outcome = Outcome(status: Status, values: Var -> Option<real>)

  type Solver = LpProblem -> Outcome

  /** The library's name for a status. */
  function StatusName(st: Status): (name: string)
    ensures name == "Optimal" <==> st == Optimal
  {
    match st
    case Optimal => "Optimal"
    case NotSolved => "Not Solved"
    case Infeasible => "Infeasible"
    case Unbounded => "Unbounded"
    case Undefined => "Undefined"
  }

  /** Different statuses have different names. */
  lemma StatusNamesDistinct(a: Status, b: Status)
    ensures StatusName(a) == StatusName(b) <==> a == b
  {
    if a != b {
      assert StatusName(a) != StatusName(b) by {
        match a
        case Optimal =>
        case NotSolved => assert StatusName(a)[0] == 'N';
        case Infeasible => assert StatusName(a)[0] == 'I';
        case Unbounded => assert StatusName(a)[0] == 'U' && StatusName(a)[1] == 'n';
        case Undefined => assert StatusName(a)[0] == 'U' && StatusName(a)[1] == 'n' && StatusName(a)[2] == 'd';
      }
    }
  }

  /** The scheduler's state: the horizon, the tariff per step, the household's own
      consumption per step, the net-metering rate, the registered devices, the
      problem, and what the last solve left behind — the status, the value each
      variable holds, and the solution read from them, keyed by variable name. */
  datatype Scheduler = Scheduler(
    horizon: nat,
    tariffRates: seq<real>,
    elecUsage: seq<real>,
    netMeteringRate: real,
    ders: seq<Registered>,
    prob: LpProblem,
    status: Status,
    varValues: map<Var, real>,
    solution: map<Var, Option<real>>)

  /** Why a scheduler cannot be built: the tariff and the consumption cover
      different numbers of steps. */
  datatype BuildError = LengthMismatch

  // ---------------------------------------------------------------------------
  // Construction

  /** Device `i` is registered under index `i`, every device for `horizon` steps. */
  predicate Numbered(ders: seq<Registered>, horizon: nat) {
    forall i :: 0 <= i < |ders| ==> ders[i].prefix == i && ders[i].horizon == horizon
  }

  /** Registers every device, the `i`-th under index `i`. */
  function RegisterAll(devices: seq<Device>, horizon: nat): (ders: seq<Registered>)
    ensures |ders| == |devices|
    ensures forall i :: 0 <= i < |devices| ==> ders[i] == Register(devices[i], horizon, i)
    ensures Numbered(ders, horizon)
  {
    seq(|devices|, i requires 0 <= i < |devices| => Register(devices[i], horizon, i))
  }

  /** The household's bill for its own consumption, one number per step. */
  function BaselineTerms(tariffRates: seq<real>, elecUsage: seq<real>, n: nat): (es: seq<Expr>)
    requires n <= |tariffRates| && n <= |elecUsage|
    ensures |es| == n
  {
    seq(n, t requires 0 <= t < n => Num(tariffRates[t] * elecUsage[t]))
  }

  /** Every device's horizon fits the tariff. */
  predicate Covers(ders: seq<Registered>, tariffRates: seq<real>) {
    forall i :: 0 <= i < |ders| ==> ders[i].horizon <= |tariffRates|
  }

  /** Each device's cost expression, in registration order. */
  function CostTerms(ders: seq<Registered>, tariffRates: seq<real>, netMeteringRate: real): (es: seq<Expr>)
    requires Covers(ders, tariffRates)
    ensures |es| == |ders|
  {
    seq(|ders|, i requires 0 <= i < |ders| && Covers(ders, tariffRates) => Cost(ders[i], tariffRates, netMeteringRate))
  }

  /** The objective: the sum of the baseline bill and every device's cost. */
  function Objective(ders: seq<Registered>, tariffRates: seq<real>, elecUsage: seq<real>, netMeteringRate: real): Expr
    requires |tariffRates| == |elecUsage| && Covers(ders, tariffRates)
  {
    LpSum(BaselineTerms(tariffRates, elecUsage, |tariffRates|) + CostTerms(ders, tariffRates, netMeteringRate))
  }

  /** Each device's constraint list, in registration order. */
  function DeviceConstraints(ders: seq<Registered>): (css: seq<seq<Constraint>>)
    ensures |css| == |ders|
    ensures forall i :: 0 <= i < |ders| ==> css[i] == Constraints(ders[i])
  {
    seq(|ders|, i requires 0 <= i < |ders| => Constraints(ders[i]))
  }

  /** Every device's constraints, device after device. */
  function AllConstraints(ders: seq<Registered>): seq<Constraint> {
    Concat(DeviceConstraints(ders))
  }

  function Problem(ders: seq<Registered>, tariffRates: seq<real>, elecUsage: seq<real>, netMeteringRate: real): LpProblem
    requires |tariffRates| == |elecUsage| && Covers(ders, tariffRates)
  {
    LpProblem(Objective(ders, tariffRates, elecUsage, netMeteringRate), AllConstraints(ders))
  }

  /** The shape every scheduler has from construction on: the horizon is the length
      of the tariff and of the consumption, device `i` is registered under index `i`
      for that horizon, and the problem is the one built from them. */
  predicate Built(s: Scheduler) {
    s.horizon == |s.tariffRates| == |s.elecUsage|
    && Numbered(s.ders, s.horizon)
    && s.prob == Problem(s.ders, s.tariffRates, s.elecUsage, s.netMeteringRate)
  }

  /** A built scheduler whose recorded values and solution concern only variables of
      its problem. */
  predicate Wf(s: Scheduler) {
    Built(s) && s.varValues.Keys <= ProblemVars(s.prob) && s.solution.Keys <= ProblemVars(s.prob)
  }

  /** Nothing solved yet. */
  predicate Fresh(s: Scheduler) {
    s.status == NotSolved && s.varValues == map[] && s.solution == map[]
  }

  /** Builds the scheduler, or fails when the tariff and the consumption differ in
      length. The net-metering rate is one minus the depreciation. */
  function Build(devices: seq<Device>, tariffRates: seq<real>, elecUsage: seq<real>, depreciation: real): (res: Result<Scheduler, BuildError>)
    ensures res.Failure? <==> |tariffRates| != |elecUsage|
    ensures res.Success? ==> Wf(res.value) && Fresh(res.value)
    ensures res.Success? ==>
      && res.value.horizon == |tariffRates|
      && res.value.tariffRates == tariffRates && res.value.elecUsage == elecUsage
      && res.value.netMeteringRate == NetMeteringRate(depreciation)
      && |res.value.ders| == |devices|
      && forall i :: 0 <= i < |devices| ==> res.value.ders[i].device == devices[i]
  {
    if |tariffRates| != |elecUsage| then Failure(LengthMismatch)
    else
      var horizon := |tariffRates|;
      var ders := RegisterAll(devices, horizon);
      var nm := NetMeteringRate(depreciation);
      Success(Scheduler(horizon, tariffRates, elecUsage, nm, ders,
        Problem(ders, tariffRates, elecUsage, nm), NotSolved, map[], map[]))
  }

  // ---------------------------------------------------------------------------
  // Meaning of the problem

  /** The household's bill for its own consumption over the first `n` steps. */
  function Baseline(tariffRates: seq<real>, elecUsage: seq<real>, n: nat): real
    requires n <= |tariffRates| && n <= |elecUsage|
  {
    if n == 0 then 0.0 else Baseline(tariffRates, elecUsage, n - 1) + tariffRates[n - 1] * elecUsage[n - 1]
  }

  /** The sum of the devices' costs for the plans an assignment gives them. */
  function DevicesCost(ders: seq<Registered>, tariffRates: seq<real>, netMeteringRate: real, x: Assignment): real
    requires Covers(ders, tariffRates)
    decreases |ders|
  {
    if |ders| == 0 then 0.0
    else
      var r := ders[|ders| - 1];
      DevicesCost(ders[..|ders| - 1], tariffRates, netMeteringRate, x)
      + DeviceCost(r.device, tariffRates, netMeteringRate, ChargingValues(r, x), DischargingValues(r, x))
  }

  lemma {:induction false} BaselineTermsMeaning(tariffRates: seq<real>, elecUsage: seq<real>, n: nat, x: Assignment)
    requires n <= |tariffRates| && n <= |elecUsage|
    ensures SumEvals(BaselineTerms(tariffRates, elecUsage, n), x) == Baseline(tariffRates, elecUsage, n)
  {
    if n > 0 {
      assert BaselineTerms(tariffRates, elecUsage, n)[..n - 1] == BaselineTerms(tariffRates, elecUsage, n - 1);
      BaselineTermsMeaning(tariffRates, elecUsage, n - 1, x);
    }
  }

  lemma {:induction false} CostTermsMeaning(ders: seq<Registered>, tariffRates: seq<real>, netMeteringRate: real, x: Assignment)
    requires Covers(ders, tariffRates)
    ensures SumEvals(CostTerms(ders, tariffRates, netMeteringRate), x) == DevicesCost(ders, tariffRates, netMeteringRate, x)
    decreases |ders|
  {
    if |ders| > 0 {
      var ders' := ders[..|ders| - 1];
      assert CostTerms(ders, tariffRates, netMeteringRate)[..|ders| - 1] == CostTerms(ders', tariffRates, netMeteringRate);
      CostTermsMeaning(ders', tariffRates, netMeteringRate, x);
    }
  }

  /** The objective's value under an assignment is the baseline bill plus the cost
      of every device's plan. */
  lemma ObjectiveMeaning(ders: seq<Registered>, tariffRates: seq<real>, elecUsage: seq<real>, netMeteringRate: real, x: Assignment)
    requires |tariffRates| == |elecUsage| && Covers(ders, tariffRates)
    ensures Eval(Objective(ders, tariffRates, elecUsage, netMeteringRate), x)
         == Baseline(tariffRates, elecUsage, |tariffRates|) + DevicesCost(ders, tariffRates, netMeteringRate, x)
  {
    var base := BaselineTerms(tariffRates, elecUsage, |tariffRates|);
    var costs := CostTerms(ders, tariffRates, netMeteringRate);
    EvalLpSum(base + costs, x);
    SumEvalsAppend(base, costs, x);
    BaselineTermsMeaning(tariffRates, elecUsage, |tariffRates|, x);
    CostTermsMeaning(ders, tariffRates, netMeteringRate, x);
  }

  /** The problem's constraints hold exactly when every device's constraints hold:
      nothing ties two devices together. */
  lemma AllConstraintsMeaning(ders: seq<Registered>, x: Assignment)
    ensures AllHold(AllConstraints(ders), x) <==> forall i :: 0 <= i < |ders| ==> AllHold(Constraints(ders[i]), x)
  {
    AllHoldConcat(DeviceConstraints(ders), x);
  }

  /** The problem's constraints hold exactly when, for every device, the decisions
      are at most 1 and the plan is feasible for the device's kind. */
  lemma ProblemConstraintsMeaning(ders: seq<Registered>, x: Assignment)
    ensures AllHold(AllConstraints(ders), x) <==>
      forall i :: 0 <= i < |ders| ==>
        && AtMostOne(ChargingValues(ders[i], x)) && AtMostOne(DischargingValues(ders[i], x))
        && Feasible(ders[i].device, ChargingValues(ders[i], x), DischargingValues(ders[i], x))
  {
    AllConstraintsMeaning(ders, x);
    forall i | 0 <= i < |ders| {
      ConstraintsMeaning(ders[i], x);
    }
  }

  /** For 0/1 values the problem's constraints hold exactly when every device's plan
      is feasible. */
  lemma DeclaredProblemMeaning(ders: seq<Registered>, x: Assignment)
    requires forall i :: 0 <= i < |ders| ==> RespectsDeclarations(ders[i], x)
    ensures AllHold(AllConstraints(ders), x) <==>
      forall i :: 0 <= i < |ders| ==>
        Feasible(ders[i].device, ChargingValues(ders[i], x), DischargingValues(ders[i], x))
  {
    AllConstraintsMeaning(ders, x);
    forall i | 0 <= i < |ders| {
      DeclaredConstraintsMeaning(ders[i], x);
    }
  }

  // ---------------------------------------------------------------------------
  // Variables of the problem

  lemma AllConstraintsVars(ders: seq<Registered>, v: Var)
    ensures v in ConstraintVars(AllConstraints(ders)) <==> exists i :: 0 <= i < |ders| && Owns(ders[i], v)
  {
    ConstraintVarsConcat(DeviceConstraints(ders), v);
    forall i | 0 <= i < |ders| ensures v in ConstraintVars(Constraints(ders[i])) <==> Owns(ders[i], v) {
      ConstraintVarsOwned(ders[i], v);
    }
  }

  lemma ObjectiveVars(ders: seq<Registered>, tariffRates: seq<real>, elecUsage: seq<real>, netMeteringRate: real, v: Var)
    requires |tariffRates| == |elecUsage| && Covers(ders, tariffRates)
    requires v in VarsOf(Objective(ders, tariffRates, elecUsage, netMeteringRate))
    ensures exists i :: 0 <= i < |ders| && Owns(ders[i], v)
  {
    var terms := BaselineTerms(tariffRates, elecUsage, |tariffRates|) + CostTerms(ders, tariffRates, netMeteringRate);
    VarsOfLpSum(terms, v);
    var k :| 0 <= k < |terms| && v in VarsOf(terms[k]);
    ObjectiveTermVars(ders, tariffRates, elecUsage, netMeteringRate, k, v);
  }

  /** A term of the objective mentions only variables some device allocated: the
      baseline terms mention none. */
  lemma ObjectiveTermVars(ders: seq<Registered>, tariffRates: seq<real>, elecUsage: seq<real>, netMeteringRate: real, k: nat, v: Var)
    requires |tariffRates| == |elecUsage| && Covers(ders, tariffRates)
    requires k < |tariffRates| + |ders|
    requires v in VarsOf((BaselineTerms(tariffRates, elecUsage, |tariffRates|) + CostTerms(ders, tariffRates, netMeteringRate))[k])
    ensures exists i :: 0 <= i < |ders| && Owns(ders[i], v)
  {
    var base := BaselineTerms(tariffRates, elecUsage, |tariffRates|);
    var costs := CostTerms(ders, tariffRates, netMeteringRate);
    assert k >= |base|;
    assert (base + costs)[k] == costs[k - |base|];
    CostVarsOwned(ders[k - |base|], tariffRates, netMeteringRate, v);
  }

  /** The problem's variables are exactly the charging and discharging variables of
      every registered device at every step of the horizon. */
  lemma ProblemVarsMeaning(ders: seq<Registered>, tariffRates: seq<real>, elecUsage: seq<real>, netMeteringRate: real, v: Var)
    requires |tariffRates| == |elecUsage| && Numbered(ders, |tariffRates|)
    ensures Covers(ders, tariffRates)
    ensures v in ProblemVars(Problem(ders, tariffRates, elecUsage, netMeteringRate))
        <==> v.device < |ders| && v.step < |tariffRates|
  {
    AllConstraintsVars(ders, v);
    if v in VarsOf(Objective(ders, tariffRates, elecUsage, netMeteringRate)) {
      ObjectiveVars(ders, tariffRates, elecUsage, netMeteringRate, v);
    }
    if v.device < |ders| && v.step < |tariffRates| {
      assert Owns(ders[v.device], v);
    }
  }

  /** The facts about a scheduler's variables that reading a schedule relies on:
      device `i` was registered under index `i` for the whole horizon, and the
      problem's variables are exactly the devices' variables over the horizon. */
  ghost predicate Indexed(s: Scheduler) {
    && Numbered(s.ders, s.horizon)
    && (forall v :: v in ProblemVars(s.prob) <==> v.device < |s.ders| && v.step < s.horizon)
  }

  /** Every built scheduler is indexed. */
  lemma BuiltIsIndexed(s: Scheduler)
    requires Built(s)
    ensures Indexed(s)
  {
    forall v {
      ProblemVarsMeaning(s.ders, s.tariffRates, s.elecUsage, s.netMeteringRate, v);
    }
  }

  /** Device `i` is registered for the scheduler's horizon, and each of its charging
      and discharging variables is a variable of the problem. */
  predicate Allocated(s: Scheduler, i: nat) {
    && i < |s.ders| && s.ders[i].horizon == s.horizon
    && forall t :: 0 <= t < s.horizon ==>
      ChargeVar(s.ders[i], t) in ProblemVars(s.prob) && DischargeVar(s.ders[i], t) in ProblemVars(s.prob)
  }

  /** In an indexed scheduler every device's variables are allocated. */
  lemma IndexedAllocates(s: Scheduler, i: nat)
    requires Indexed(s) && i < |s.ders|
    ensures Allocated(s, i)
  {
    forall t | 0 <= t < s.horizon
      ensures ChargeVar(s.ders[i], t) in ProblemVars(s.prob) && DischargeVar(s.ders[i], t) in ProblemVars(s.prob)
    {
      assert ChargeVar(s.ders[i], t).device == i && DischargeVar(s.ders[i], t).device == i;
    }
  }

  // ---------------------------------------------------------------------------
  // Solving

  /** The solution entry a solve writes for one variable: its value after an optimal
      solve, undefined otherwise. */
  function SolutionEntry(o: Outcome, v: Var): Option<real> {
    if o.status == Optimal then o.values(v) else None
  }

  /** The scheduler after a solve with `solver`: the status is the solver's, the
      values are the ones the variables now hold, and the solution gets an entry
      for every variable of the problem while older entries stay. */
  function Solved(s: Scheduler, solver: Solver): Scheduler {
    var o := solver(s.prob);
    var vars := ProblemVars(s.prob);
    s.(status := o.status,
       varValues := map v | v in vars && o.values(v).Some? :: o.values(v).value,
       solution := s.solution + map v | v in vars :: SolutionEntry(o, v))
  }

  /** Writes one solution entry per variable in `vars`, keeping every other entry;
      whether the solve was optimal is read from the status's name. */
  method WriteEntries(solution: map<Var, Option<real>>, vars: set<Var>, o: Outcome) returns (r: map<Var, Option<real>>)
    ensures r.Keys == solution.Keys + vars
    ensures forall v :: v in vars ==> r[v] == SolutionEntry(o, v)
    ensures forall v :: v in solution && v !in vars ==> r[v] == solution[v]
  {
    var optimal := StatusName(o.status) == "Optimal";
    r := solution;
    var todo := vars;
    while todo != {}
      invariant todo <= vars
      invariant r.Keys == solution.Keys + (vars - todo)
      invariant forall v :: v in vars && v !in todo ==> r[v] == SolutionEntry(o, v)
      invariant forall v :: v in solution && (v !in vars || v in todo) ==> r[v] == solution[v]
    {
      var v :| v in todo;
      r := r[v := if optimal then o.values(v) else None];
      todo := todo - {v};
    }
  }

  /** Solving: hand the problem to the solver, then write one solution entry per
      variable of the problem. */
  method Solve(s: Scheduler, solver: Solver) returns (r: Scheduler)
    ensures r == Solved(s, solver)
  {
    var o := solver(s.prob);
    var vars := ProblemVars(s.prob);
    var solution := WriteEntries(s.solution, vars, o);
    var values := map v | v in vars && o.values(v).Some? :: o.values(v).value;
    r := s.(status := o.status, varValues := values, solution := solution);
    assert solution == s.solution + map v | v in vars :: SolutionEntry(o, v);
  }

  /** After a solve of a well-formed scheduler: the status is the solver's; the
      problem, the devices and the tariff are untouched; the solution has an entry
      for exactly the problem's variables, each from this solve — the solver's value
      when it reports an optimum, undefined otherwise; and the scheduler stays
      well-formed. */
  lemma SolveOutcome(s: Scheduler, solver: Solver)
    requires Wf(s)
    ensures Wf(Solved(s, solver))
    ensures Solved(s, solver).status == solver(s.prob).status
    ensures Solved(s, solver).(status := s.status, varValues := s.varValues, solution := s.solution) == s
    ensures Solved(s, solver).solution.Keys == ProblemVars(s.prob)
    ensures forall v :: v in Solved(s, solver).solution ==>
      Solved(s, solver).solution[v]
        == (if solver(s.prob).status == Optimal then solver(s.prob).values(v) else None)
  {
  }

  /** A second solve whose solver reports the same outcome for the problem as the
      first leaves the scheduler as the first solve left it. */
  lemma SolveIdempotent(s: Scheduler, first: Solver, second: Solver)
    requires second(s.prob) == first(s.prob)
    ensures Solved(Solved(s, first), second) == Solved(s, first)
  {
    var o := first(s.prob);
    var m := map v | v in ProblemVars(s.prob) :: SolutionEntry(o, v);
    assert Solved(s, first).prob == s.prob;
    assert s.solution + m + m == s.solution + m;
  }

  /** The solver assigns a value to every variable in `vars`. */
  predicate Assigns(o: Outcome, vars: set<Var>) {
    forall v :: v in vars ==> o.values(v).Some?
  }

  /** The solver's values as an assignment (0 where a variable holds none). */
  function AssignmentOf(o: Outcome): Assignment {
    v => if o.values(v).Some? then o.values(v).value else 0.0
  }

  // ---------------------------------------------------------------------------
  // Final cost

  /** The objective's value from the values the variables hold: undefined unless
      every variable it mentions holds one. */
  function FinalCost(s: Scheduler): Option<real> {
    ValueOf(s.prob.objective, s.varValues)
  }

  /** The scheduler's objective is the one built from its devices and tariff, as in
      every built scheduler. */
  predicate ObjectiveBuilt(s: Scheduler) {
    |s.tariffRates| == |s.elecUsage| && Covers(s.ders, s.tariffRates)
    && s.prob.objective == Objective(s.ders, s.tariffRates, s.elecUsage, s.netMeteringRate)
  }

  lemma BuiltHasObjective(s: Scheduler)
    requires Built(s)
    ensures ObjectiveBuilt(s)
  {
  }

  /** Before any solve the final cost is defined only when the objective mentions no
      variable, and then it is the cost of any plan whatsoever. */
  lemma FinalCostBeforeSolve(s: Scheduler, x: Assignment)
    requires ObjectiveBuilt(s) && Fresh(s)
    ensures FinalCost(s).Some? <==> VarsOf(s.prob.objective) == {}
    ensures FinalCost(s).Some? ==>
      FinalCost(s).value
        == Baseline(s.tariffRates, s.elecUsage, |s.tariffRates|) + DevicesCost(s.ders, s.tariffRates, s.netMeteringRate, x)
  {
    ValueOfMeaning(s.prob.objective, s.varValues, x);
    ObjectiveMeaning(s.ders, s.tariffRates, s.elecUsage, s.netMeteringRate, x);
  }

  /** After a solve, the final cost is defined exactly when the solver assigns every
      variable of the objective (in particular when it assigns every variable of the
      problem), and then it is the baseline bill plus the cost of every device's
      plan at the solver's values. */
  lemma FinalCostAfterSolve(s: Scheduler, solver: Solver)
    requires ObjectiveBuilt(s)
    ensures FinalCost(Solved(s, solver)).Some? <==> Assigns(solver(s.prob), VarsOf(s.prob.objective))
    ensures Assigns(solver(s.prob), ProblemVars(s.prob)) ==> FinalCost(Solved(s, solver)).Some?
    ensures FinalCost(Solved(s, solver)).Some? ==>
      FinalCost(Solved(s, solver)).value
        == Baseline(s.tariffRates, s.elecUsage, |s.tariffRates|)
           + DevicesCost(s.ders, s.tariffRates, s.netMeteringRate, AssignmentOf(solver(s.prob)))
  {
    SolvedObjectiveValue(s.prob, solver);
    if FinalCost(Solved(s, solver)).Some? {
      FinalCostValue(s, solver);
    }
  }

  lemma FinalCostValue(s: Scheduler, solver: Solver)
    requires ObjectiveBuilt(s)
    requires FinalCost(Solved(s, solver)).Some?
    ensures FinalCost(Solved(s, solver)).value == Baseline(s.tariffRates, s.elecUsage, |s.tariffRates|)
                + DevicesCost(s.ders, s.tariffRates, s.netMeteringRate, AssignmentOf(solver(s.prob)))
  {
    SolvedObjectiveValue(s.prob, solver);
    ObjectiveMeaning(s.ders, s.tariffRates, s.elecUsage, s.netMeteringRate, AssignmentOf(solver(s.prob)));
  }

  /** The values a solve leaves are the solver's, for exactly the problem's
      variables the solver assigns. */
  lemma SolvedValues(s: Scheduler, solver: Solver)
    ensures forall v :: v in Solved(s, solver).varValues <==> v in ProblemVars(s.prob) && solver(s.prob).values(v).Some?
    ensures forall v :: v in Solved(s, solver).varValues ==>
      AssignmentOf(solver(s.prob))(v) == Solved(s, solver).varValues[v]
  {
  }

  lemma SolvedObjectiveValue(p: LpProblem, solver: Solver)
    ensures forall s: Scheduler :: s.prob == p ==>
      (FinalCost(Solved(s, solver)).Some? <==> Assigns(solver(p), VarsOf(p.objective)))
    ensures forall s: Scheduler :: s.prob == p && FinalCost(Solved(s, solver)).Some? ==>
      FinalCost(Solved(s, solver)).value == Eval(p.objective, AssignmentOf(solver(p)))
  {
    forall s: Scheduler | s.prob == p
      ensures FinalCost(Solved(s, solver)).Some? <==> Assigns(solver(p), VarsOf(p.objective))
      ensures FinalCost(Solved(s, solver)).Some? ==>
        FinalCost(Solved(s, solver)).value == Eval(p.objective, AssignmentOf(solver(p)))
    {
      var r := Solved(s, solver);
      SolvedValues(s, solver);
      ValueOfMeaning(p.objective, r.varValues, AssignmentOf(solver(p)));
    }
  }

  // ---------------------------------------------------------------------------
  // Schedules

  /** Before any solve the schedule of device `i` cannot be read: the solution is
      empty. After any solve over a non-empty horizon it can be read, whatever
      status the solver reports. */
  lemma ScheduleNeedsSolve(s: Scheduler, solver: Solver, i: nat)
    requires Allocated(s, i)
    ensures Fresh(s) ==> ChargeDischargeSchedule(s.ders[i], s.solution) == Failure(EmptySolution)
    ensures s.horizon > 0 ==> ChargeDischargeSchedule(s.ders[i], Solved(s, solver).solution).Success?
  {
    if s.horizon > 0 {
      var r := Solved(s, solver);
      var d := s.ders[i];
      forall t | 0 <= t < d.horizon
        ensures ChargeVar(d, t) in r.solution && DischargeVar(d, t) in r.solution
      {
        SolvedEntry(s, solver, ChargeVar(d, t));
        SolvedEntry(s, solver, DischargeVar(d, t));
      }
      assert ChargeVar(d, 0) in r.solution;
    }
  }

  /** After an optimal solve that assigns every variable, device `i`'s schedule is
      its charging minus its discharging value at every step. */
  lemma ScheduleAfterOptimal(s: Scheduler, solver: Solver, i: nat)
    requires Allocated(s, i) && s.horizon > 0
    requires solver(s.prob).status == Optimal && Assigns(solver(s.prob), ProblemVars(s.prob))
    ensures ReadsAs(s.ders[i], Solved(s, solver).solution, AssignmentOf(solver(s.prob)))
  {
    OptimalEntries(s, solver, i);
    ScheduleOfAssignment(s.ders[i], Solved(s, solver).solution, AssignmentOf(solver(s.prob)));
  }

  /** When the solver's values are ones the declarations admit (0 or 1), every entry
      of the schedule read after an optimal solve is -1, 0 or 1. */
  lemma OptimalScheduleSteps(s: Scheduler, solver: Solver, i: nat)
    requires Allocated(s, i) && s.horizon > 0
    requires solver(s.prob).status == Optimal && Assigns(solver(s.prob), ProblemVars(s.prob))
    requires RespectsDeclarations(s.ders[i], AssignmentOf(solver(s.prob)))
    ensures ChargeDischargeSchedule(s.ders[i], Solved(s, solver).solution).Success?
    ensures forall t :: 0 <= t < s.horizon ==>
      ChargeDischargeSchedule(s.ders[i], Solved(s, solver).solution).value[t] in {Some(-1.0), Some(0.0), Some(1.0)}
  {
    OptimalEntries(s, solver, i);
    DeclaredValuesAreBits(s.ders[i], AssignmentOf(solver(s.prob)));
    ScheduleOfAssignment(s.ders[i], Solved(s, solver).solution, AssignmentOf(solver(s.prob)));
  }

  /** An optimal solve that assigns every variable writes each variable of device
      `i` with the solver's value. */
  lemma OptimalEntries(s: Scheduler, solver: Solver, i: nat)
    requires Allocated(s, i) && s.horizon > 0
    requires solver(s.prob).status == Optimal && Assigns(solver(s.prob), ProblemVars(s.prob))
    ensures HoldsValues(s.ders[i], Solved(s, solver).solution, AssignmentOf(solver(s.prob)))
  {
    var o := solver(s.prob);
    var r := Solved(s, solver);
    var d := s.ders[i];
    forall t | 0 <= t < d.horizon
      ensures ChargeVar(d, t) in r.solution && r.solution[ChargeVar(d, t)] == Some(AssignmentOf(o)(ChargeVar(d, t)))
      ensures DischargeVar(d, t) in r.solution && r.solution[DischargeVar(d, t)] == Some(AssignmentOf(o)(DischargeVar(d, t)))
    {
      SolvedEntry(s, solver, ChargeVar(d, t));
      SolvedEntry(s, solver, DischargeVar(d, t));
    }
    assert ChargeVar(d, 0) in r.solution;
  }

  lemma SolvedEntry(s: Scheduler, solver: Solver, v: Var)
    requires v in ProblemVars(s.prob)
    ensures v in Solved(s, solver).solution
    ensures Solved(s, solver).solution[v] == SolutionEntry(solver(s.prob), v)
    ensures solver(s.prob).status == Optimal && solver(s.prob).values(v).Some? ==>
      Solved(s, solver).solution[v] == Some(AssignmentOf(solver(s.prob))(v))
  {
  }

  /** After a solve that does not report an optimum, every entry of every schedule
      is undefined. */
  lemma ScheduleAfterFailure(s: Scheduler, solver: Solver, i: nat)
    requires Allocated(s, i) && s.horizon > 0
    requires solver(s.prob).status != Optimal
    ensures ChargeDischargeSchedule(s.ders[i], Solved(s, solver).solution).Success?
    ensures forall t :: 0 <= t < s.ders[i].horizon ==>
      ChargeDischargeSchedule(s.ders[i], Solved(s, solver).solution).value[t] == None
  {
    var r := Solved(s, solver);
    var d := s.ders[i];
    forall t | 0 <= t < d.horizon
      ensures ChargeVar(d, t) in r.solution && r.solution[ChargeVar(d, t)] == None
      ensures DischargeVar(d, t) in r.solution && r.solution[DischargeVar(d, t)] == None
    {
      SolvedEntry(s, solver, ChargeVar(d, t));
      SolvedEntry(s, solver, DischargeVar(d, t));
    }
    assert ChargeVar(d, 0) in r.solution;
    ScheduleOfUndefined(d, r.solution);
  }
}
