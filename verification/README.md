# Residential charge/discharge scheduling — a Dafny model

This project models the optimisation core of the residential charging-schedule
solver (`residential_solver.py`). A household has storage devices: plain batteries
and electric vehicles. Over a horizon of T steps, each device gets one 0/1 decision
per step to charge and one 0/1 decision per step to discharge.

The scheduler builds one minimisation problem. Its objective is the household's
baseline bill plus every device's cost. A device's cost is three parts:
- the tariff it pays for charging;
- less a net-metering credit for discharging, at the rate `1 - depreciation`;
- plus a degradation penalty on every charge and discharge.

The constraints keep each device's state of charge within `[0, capacity]` after
every prefix of the horizon, from 0 steps to T. A vehicle must also end exactly at
capacity.

The scheduler hands the problem to a solver and records the outcome. After an
optimal solve it writes the values into a solution map keyed by variable name;
otherwise it writes NaN for each variable. It then reads each device's schedule,
`charging[t] - discharging[t]`, back out of that map.

The project is split into five modules:

- `Wrappers` (`wrappers.dfy`): `Option` and `Result`.
- `Linear` (`linear.dfy`): the part of the LP library the program uses. It has
  named 0/1 variables, affine expressions kept as data (`Expr`) with their value
  under an assignment (`Eval`), and constraints with when they hold. It also has the
  library's partial evaluation of an expression from the values variables hold
  (`ValueOf`), and the solver status.
- `Devices` (`devices.dfy`): reference definitions, independent of any LP
  encoding. They cover the level after n steps, battery and vehicle feasibility,
  the net bill, the degradation penalty and the device cost.
- `Storage` (`storage.dfy`): one registered device. Its variables, constraints,
  cost and final-charge expressions are built as the program builds them. Lemmas
  prove what each means in terms of `Devices`. The module also reads the
  schedule.
- `Residential` (`residential.dfy`): the scheduler. It covers construction
  (`Build`), the problem's objective, constraints and variables, solving
  (`Solved`, and the method `Solve`), status names, the final cost, and reading
  schedules after a solve.

The solver is a parameter, a function from problem to outcome. The outcome is a
status plus an optional value per variable. The model does not claim that the
solver finds an optimum. It states what the scheduler does with whatever the
solver reports.

## Model

All source paths are under `hackathon-2022-charging-schedule-optimization/`.

| member | source | states |
|---|---|---|
| Linear.BooleanVariable | hackathon-2022-charging-schedule-optimization/residential_solver.py:5-6 | the variable carries the given name, admits 0 and 1, and admits nothing outside [0, 1] |
| Linear.BooleanVariableAdmitsBits | hackathon-2022-charging-schedule-optimization/residential_solver.py:5-6 | an integral variable bounded by 0 and 1 admits a value exactly when it is 0 or 1 |
| Storage.Register | hackathon-2022-charging-schedule-optimization/residential_solver.py:15-19 | registration keeps the device and allocates T charging and T discharging variables, named `C_<prefix>_<t>` and `D_<prefix>_<t>` |
| Storage.RegisterAllocatesDistinctBooleans | hackathon-2022-charging-schedule-optimization/residential_solver.py:15-19 | registration allocates 2T variables; each carries the device's prefix and admits exactly 0 and 1; no two share a name |
| Storage.UsageCost | hackathon-2022-charging-schedule-optimization/residential_solver.py:24-26 | under any assignment, the usage-cost expression is the degradation cost times the sum of all charging and discharging values |
| Devices.DegradationPenalty | hackathon-2022-charging-schedule-optimization/residential_solver.py:24-26 | for 0/1 decisions, the penalty is the degradation cost times (#charging steps + #discharging steps); it is never negative when the degradation cost is not |
| Devices.DegradationPenaltyMonotone | hackathon-2022-charging-schedule-optimization/residential_solver.py:24-26 | a higher degradation cost never lowers the penalty of the same non-negative plan |
| Storage.UnitBoundsMeaning | hackathon-2022-charging-schedule-optimization/residential_solver.py:31-32 | the list built from `0 <= v <= 1` holds exactly when every variable is at most 1 (the chained comparison keeps only its upper bound) |
| Storage.CurrentCharge | hackathon-2022-charging-schedule-optimization/residential_solver.py:33-35 | under any assignment, the current-charge expression for prefix length n is the initial charge plus charges minus discharges of the first n steps |
| Storage.PrefixBoundsMeaning | hackathon-2022-charging-schedule-optimization/residential_solver.py:33-37 | the bound pairs for prefix lengths below n hold exactly when the level after each of those prefixes lies in [0, capacity] |
| Storage.BatteryConstraintsMeaning | hackathon-2022-charging-schedule-optimization/residential_solver.py:28-38 | a battery's constraints hold exactly when every decision is at most 1 and the level after every prefix of length 0..T is in [0, capacity] |
| Storage.ConstraintsMeaning | hackathon-2022-charging-schedule-optimization/residential_solver.py:28-67 | a device's constraints (`Storage.Constraints`, the battery list or the vehicle list) hold exactly when its decisions are at most 1 and its plan is feasible for its kind |
| Storage.DeclaredConstraintsMeaning | hackathon-2022-charging-schedule-optimization/residential_solver.py:28-38 | for values the declarations admit, the decisions are 0/1 and the constraints hold exactly when the plan is feasible |
| Devices.FeasibleStartsWithinCapacity | hackathon-2022-charging-schedule-optimization/residential_solver.py:33-37 | the prefix of length 0 forces the initial charge itself into [0, capacity] |
| Devices.LevelWithinSteps | hackathon-2022-charging-schedule-optimization/residential_solver.py:34-35 | with 0/1 decisions, the level after n steps is within n of the initial charge |
| Devices.SimultaneousFlowsStayFeasible | hackathon-2022-charging-schedule-optimization/residential_solver.py:28-38 | nothing excludes charging and discharging in the same step: switching both on in an idle step of a feasible plan keeps it feasible and 0/1 |
| Storage.FinalCharge | hackathon-2022-charging-schedule-optimization/residential_solver.py:50-52 | under any assignment, the final-charge expression is the level after all T steps |
| Storage.VehicleConstraintsParts | hackathon-2022-charging-schedule-optimization/residential_solver.py:62-67 | a vehicle's constraints hold exactly when the battery constraints hold and the final level equals the capacity |
| Storage.VehicleConstraintsImplyBattery | hackathon-2022-charging-schedule-optimization/residential_solver.py:62-67 | whatever satisfies a vehicle's constraints satisfies the same device's constraints as a battery, and ends at capacity |
| Storage.FinalEqualityImpliesLastUpperBound | hackathon-2022-charging-schedule-optimization/residential_solver.py:62-67 | the vehicle's final equality implies the last battery constraint, the upper bound at prefix length T |
| Devices.VehicleUnreachable | hackathon-2022-charging-schedule-optimization/residential_solver.py:62-67 | a vehicle whose initial charge plus T is below its capacity has no feasible 0/1 plan |
| Storage.Cost | hackathon-2022-charging-schedule-optimization/residential_solver.py:40-48 | under any assignment, the cost expression is the device cost of the plan: the net bill plus the degradation penalty |
| Storage.TariffSumMeaning | hackathon-2022-charging-schedule-optimization/residential_solver.py:42-46 | the summed per-step tariff terms are the plan's net bill over the horizon |
| Devices.NetBillSplits | hackathon-2022-charging-schedule-optimization/residential_solver.py:42-46 | the net bill is the full bill for charging minus the net-metering rate times the full bill for discharging |
| Devices.NetMeteringRate | hackathon-2022-charging-schedule-optimization/residential_solver.py:81 | the rate is 1 without depreciation and 0 with full depreciation, and lies in [0, 1] for depreciation in [0, 1] |
| Devices.NoCreditWhenFullyDepreciated | hackathon-2022-charging-schedule-optimization/residential_solver.py:42-48 | with full depreciation, the cost net of degradation is the charging bill alone; it is the same for any discharging decisions |
| Storage.ChargeDischargeSchedule | hackathon-2022-charging-schedule-optimization/residential_solver.py:54-59 | reading fails with EmptySolution exactly when the solution is empty, and with MissingValue exactly when it is not empty but lacks one of the device's variables; otherwise it has T entries |
| Storage.ScheduleOfAssignment | hackathon-2022-charging-schedule-optimization/residential_solver.py:54-59 | against a solution holding an assignment's values, every entry is charging minus discharging; for 0/1 values every entry is -1, 0 or 1 |
| Storage.ScheduleOfUndefined | hackathon-2022-charging-schedule-optimization/residential_solver.py:54-59 | against a solution whose device variables are all NaN, every entry is NaN |
| Residential.RegisterAll | hackathon-2022-charging-schedule-optimization/residential_solver.py:86 | device i is registered under index i, for the scheduler's horizon |
| Residential.Build | hackathon-2022-charging-schedule-optimization/residential_solver.py:70-97 | construction fails exactly when the tariff and consumption lengths differ. Otherwise: T is their length; the net-metering rate is 1 - depreciation; the devices are kept in order; the scheduler is well formed, with status Not Solved and an empty solution |
| Residential.ObjectiveMeaning | hackathon-2022-charging-schedule-optimization/residential_solver.py:88-91 | under any assignment, the objective `Residential.Objective` is the baseline bill plus the sum of every device's cost |
| Residential.AllConstraintsMeaning | hackathon-2022-charging-schedule-optimization/residential_solver.py:93-95 | the problem's constraint list holds exactly when every device's constraint list holds |
| Residential.ProblemConstraintsMeaning | hackathon-2022-charging-schedule-optimization/residential_solver.py:93-95 | the problem's constraints hold exactly when, for every device, decisions are at most 1 and the plan is feasible for its kind |
| Residential.DeclaredProblemMeaning | hackathon-2022-charging-schedule-optimization/residential_solver.py:93-95 | for values the declarations admit, the problem's constraints hold exactly when every device's plan is feasible |
| Residential.ProblemVarsMeaning | hackathon-2022-charging-schedule-optimization/residential_solver.py:86-95 | the problem's variables are exactly the charging and discharging variables of every device at every step |
| Residential.BuiltIsIndexed | hackathon-2022-charging-schedule-optimization/residential_solver.py:86-95 | every built scheduler has device i under index i, and exactly the devices' variables in its problem |
| Residential.WriteEntries | hackathon-2022-charging-schedule-optimization/residential_solver.py:101-106 | writes one entry per problem variable and keeps all other entries. Each written entry is the solver's value when the status name is "Optimal", and NaN otherwise |
| Residential.Solve | hackathon-2022-charging-schedule-optimization/residential_solver.py:99-107 | the method's result is the scheduler after a solve as `Solved` defines it |
| Residential.SolveOutcome | hackathon-2022-charging-schedule-optimization/residential_solver.py:99-107 | after a solve (`Residential.Solved`): the status is the solver's; the problem, devices and tariff are unchanged; the solution's keys are exactly the problem's variables, each holding this solve's entry; well-formedness is kept |
| Residential.SolveIdempotent | hackathon-2022-charging-schedule-optimization/residential_solver.py:99-107 | a second solve whose solver reports the same outcome for the problem as the first leaves the scheduler exactly as the first solve left it |
| Residential.StatusName | hackathon-2022-charging-schedule-optimization/residential_solver.py:109-111 | the status name is "Optimal" exactly for the Optimal status |
| Residential.StatusNamesDistinct | hackathon-2022-charging-schedule-optimization/residential_solver.py:109-111 | two statuses have the same name exactly when they are equal |
| Linear.ValueOfMeaning | hackathon-2022-charging-schedule-optimization/residential_solver.py:113-115 | an expression has a value exactly when every variable it mentions holds one, and that value is the expression evaluated at those values |
| Residential.FinalCostBeforeSolve | hackathon-2022-charging-schedule-optimization/residential_solver.py:113-115 | before a solve, the final cost is defined only when the objective mentions no variable, and then it is the cost of any plan |
| Residential.FinalCostAfterSolve | hackathon-2022-charging-schedule-optimization/residential_solver.py:113-115 | after a solve, the final cost (`Residential.FinalCost`) is defined exactly when the solver assigns every objective variable. It is then the baseline bill plus every device's cost at the solver's values |
| Residential.ScheduleNeedsSolve | hackathon-2022-charging-schedule-optimization/residential_solver.py:54-59 | before any solve the solution is empty and reading a schedule fails with EmptySolution; after any solve over T > 0 steps, whatever the status, it succeeds |
| Residential.OptimalEntries | hackathon-2022-charging-schedule-optimization/residential_solver.py:101-103 | an optimal solve that assigns every variable writes each of the device's variables with the solver's value |
| Residential.ScheduleAfterOptimal | hackathon-2022-charging-schedule-optimization/residential_solver.py:101-103 | after an optimal solve, a device's schedule reads, at every step, the solver's charging value minus its discharging value |
| Residential.OptimalScheduleSteps | hackathon-2022-charging-schedule-optimization/residential_solver.py:59 | after an optimal solve with 0/1 values, every schedule entry is -1, 0 or 1 |
| Residential.ScheduleAfterFailure | hackathon-2022-charging-schedule-optimization/residential_solver.py:104-106 | after a solve that is not optimal, the schedule can be read and every entry is NaN |

## Left out

- The LP solver itself, and the PuLP problem object, are not modelled. The solver is
  a parameter (`Solver`), and nothing is proved about optimality of its answer. The
  `**kwargs` forwarded to it are not modelled.
- `plot_solution` (plotting with matplotlib) is not part of this model.
- Floating point is modelled as `real`. Rounding in the tariff products and in the
  solver's values is not modelled.
- NaN is modelled as `None`. `Difference` models NaN propagation in
  `solution[C] - solution[D]`. The same undefined result also covers a solver value
  of `None`, for which Python would raise a `TypeError` on subtraction.
- Variable names are modelled as the structured `Var(flow, device, step)` rather
  than as strings. Distinct devices are therefore distinct names; the program gets
  this from distinct integer prefixes.
- A missing key in `solution[...]` (a Python `KeyError`) is modelled as the
  `MissingValue` failure. The `assert len(solution)` is modelled as the
  `EmptySolution` failure.
- The `assert len(tariffRates) == len(elecUsage)` in the constructor is modelled as
  the `LengthMismatch` failure of `Build`.
- The default arguments of the constructor and of the device classes are not
  modelled. All parameters are explicit.
- Numeric status codes and the library's code-to-name table are modelled as the
  `Status` enumeration and `StatusName`.
- The order in which the library lists a problem's variables is not modelled. The
  variables are a set, and the solve writes one entry per variable.
- `Linear.ValueOf` follows the library's evaluation, in which multiplying by 0
  gives 0 even when the other factor has no value.
- Residential.ScheduleNeedsSolve, Residential.ScheduleAfterOptimal,
  Residential.OptimalScheduleSteps, Residential.OptimalEntries and
  Residential.ScheduleAfterFailure require only that
  device `i` is `Allocated`, not that the whole scheduler is `Built`. This is weaker
  than `Built`: `Residential.BuiltIsIndexed` and `Residential.IndexedAllocates` prove
  that every device of a built scheduler is allocated. In the same way, the
  final-cost lemmas require only `ObjectiveBuilt`, which every built scheduler
  satisfies (`Residential.BuiltHasObjective`).
- Residential.RegisterAll: devices are modelled as values, so each list entry is a
  separate device with its own variables. In the program a device is a mutable
  object whose `register` call (lines 15-19) rebinds its scheduler, prefix and
  variables. The same object listed twice therefore ends up with the last index's
  variables for both entries, and its cost enters the objective twice. A device
  shared by two schedulers reads the later scheduler's solution. The model assumes
  distinct device objects, each registered with one scheduler.
- Residential.SolveIdempotent: a repeated solve is stated only for a second solver
  run that reports the same outcome for the problem as the first. The program does
  not promise this: the `**kwargs` forwarded at line 100 (time limits, warm starts)
  and the solver's own behaviour may make a second `prob.solve` answer differently,
  and then the second solve rewrites the status, the values and the solution.
- A solve of a problem whose objective mentions no variable is not modelled as the
  library performs it. This happens, for example, when T = 0, when there are no
  devices, or when every degradation cost is 0 and every `tariffRates[t] * chargeRate`
  is 0, since a variable multiplied by 0 is dropped (`Linear.VarsOf`). The library
  may then add a placeholder variable to the problem, and line 102 would write it
  into the solution. In the model a problem's variables are only those its
  objective and constraints mention (`ProblemVars`). So the model's statements
  about reading a schedule, and about the final cost, after such a solve are about
  the model only.

## Notes on the code as written

- `[0 <= C <= 1 for C in ...]` is a Python chained comparison. Each list element is
  only the second comparison, `C <= 1`. The lower bound 0 comes from the variable's
  declaration. The model builds the constraints this way (`Storage.UnitBounds`).
- No constraint excludes charging and discharging in the same step
  (`Devices.SimultaneousFlowsStayFeasible`); such a step leaves the level unchanged.
- The solution map is merged on each solve (line 103): entries are written per
  variable, and no entry is removed. After a solve of a well-formed scheduler its
  keys are exactly the problem's variables (`Residential.SolveOutcome`).
