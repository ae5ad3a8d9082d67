/**
 The part of a linear-programming library that the scheduler uses: named decision
 variables with bounds, affine expressions over them, linear constraints, and the
 solver's status. Expressions are kept as data so that the scheduler's formulation
 can be built exactly as the program builds it and then given a meaning over a
 concrete assignment of values to variables.
 */
module Linear {
  import opened Wrappers

  /** Which of a device's two decisions a variable stands for. */
  datatype Flow = Charge | Discharge

  /** The name of a decision variable. The program writes it as the string
      `C_<device>_<step>` or `D_<device>_<step>`; here it is kept as its three
      parts, so two names are equal exactly when all three parts are. */
  datatype Var = Var(flow: Flow, device: nat, step: nat)

  /** A declared variable: its name, lower and upper bound, and whether it is integral. */
  datatype LpVar = LpVar(name: Var, low: real, up: real, integral: bool)

  /** Whether value `r` is one the declaration of `v` permits. */
  predicate Admits(v: LpVar, r: real) {
    v.low <= r <= v.up && (v.integral ==> r.Floor as real == r)
  }

  /** A 0/1 decision variable: an integral variable bounded by 0 and 1. */
  function BooleanVariable(name: Var): (v: LpVar)
    ensures v.name == name
    ensures Admits(v, 0.0) && Admits(v, 1.0)
    ensures forall r :: Admits(v, r) ==> 0.0 <= r <= 1.0
  {
    LpVar(name, 0.0, 1.0, true)
  }

  /** A Boolean variable admits exactly the values 0 and 1. */
  lemma BooleanVariableAdmitsBits(name: Var, r: real)
    ensures Admits(BooleanVariable(name), r) <==> (r == 0.0 || r == 1.0)
  {
    if Admits(BooleanVariable(name), r) {
      var k := r.Floor;
      assert k as real == r;
      assert 0 <= k <= 1;
    }
  }

  /** A value for every variable. */
  type Assignment = Var -> real

  /** A linear expression, kept in the shape the program writes it: numbers,
      variables, sums, and multiplication by a number. */
  datatype Expr =
    | Num(k: real)
    | Ref(v: Var)
    | Add(a: Expr, b: Expr)
    | Times(coef: real, e: Expr)

  /** The value of an expression under an assignment. */
  function Eval(e: Expr, x: Assignment): real {
    match e
    case Num(k) => k
    case Ref(v) => x(v)
    case Add(a, b) => Eval(a, x) + Eval(b, x)
    case Times(k, a) => k * Eval(a, x)
  }

  function Minus(a: Expr, b: Expr): (e: Expr)
    ensures forall x :: Eval(e, x) == Eval(a, x) - Eval(b, x)
    ensures VarsOf(e) == VarsOf(a) + VarsOf(b)
  {
    Add(a, Times(-1.0, b))
  }

  /** The sum of the values of a list of expressions. */
  function SumEvals(es: seq<Expr>, x: Assignment): real
    decreases |es|
  {
    if |es| == 0 then 0.0 else SumEvals(es[..|es| - 1], x) + Eval(es[|es| - 1], x)
  }

  /** The library's sum of a list of expressions, as one expression. */
  function LpSum(es: seq<Expr>): Expr
    decreases |es|
  {
    if |es| == 0 then Num(0.0) else Add(LpSum(es[..|es| - 1]), es[|es| - 1])
  }

  /** The value of the sum expression is the sum of the values. */
  lemma {:induction false} EvalLpSum(es: seq<Expr>, x: Assignment)
    ensures Eval(LpSum(es), x) == SumEvals(es, x)
    decreases |es|
  {
    if |es| > 0 {
      EvalLpSum(es[..|es| - 1], x);
    }
  }

  lemma {:induction false} SumEvalsAppend(a: seq<Expr>, b: seq<Expr>, x: Assignment)
    ensures SumEvals(a + b, x) == SumEvals(a, x) + SumEvals(b, x)
    decreases |b|
  {
    if |b| == 0 {
      assert a + b == a;
    } else {
      assert (a + b)[..|a + b| - 1] == a + b[..|b| - 1];
      SumEvalsAppend(a, b[..|b| - 1], x);
    }
  }

  /** The sense of a constraint `e <= 0`, `e >= 0` or `e == 0`. */
  datatype Sense = AtMostZero | AtLeastZero | EqualsZero

  datatype Constraint = Constraint(e: Expr, sense: Sense)

  predicate Holds(c: Constraint, x: Assignment) {
    match c.sense
    case AtMostZero => Eval(c.e, x) <= 0.0
    case AtLeastZero => Eval(c.e, x) >= 0.0
    case EqualsZero => Eval(c.e, x) == 0.0
  }

  predicate AllHold(cs: seq<Constraint>, x: Assignment) {
    forall k :: 0 <= k < |cs| ==> Holds(cs[k], x)
  }

  lemma AllHoldAppend(a: seq<Constraint>, b: seq<Constraint>, x: Assignment)
    ensures AllHold(a + b, x) <==> AllHold(a, x) && AllHold(b, x)
  {
    if AllHold(a, x) && AllHold(b, x) {
      forall k | 0 <= k < |a + b| ensures Holds((a + b)[k], x) {
        if k >= |a| {
          assert (a + b)[k] == b[k - |a|];
        }
      }
    }
    if AllHold(a + b, x) {
      forall k | 0 <= k < |a| ensures Holds(a[k], x) {
        assert (a + b)[k] == a[k];
      }
      forall k | 0 <= k < |b| ensures Holds(b[k], x) {
        assert (a + b)[|a| + k] == b[k];
      }
    }
  }

  /** `lhs <= bound`, normalised as the library stores it. */
  function AtMost(lhs: Expr, bound: real): (c: Constraint)
    ensures forall x :: Holds(c, x) <==> Eval(lhs, x) <= bound
    ensures VarsOf(c.e) == VarsOf(lhs)
  {
    Constraint(Minus(lhs, Num(bound)), AtMostZero)
  }

  /** `lhs >= bound`, normalised as the library stores it. */
  function AtLeast(lhs: Expr, bound: real): (c: Constraint)
    ensures forall x :: Holds(c, x) <==> Eval(lhs, x) >= bound
    ensures VarsOf(c.e) == VarsOf(lhs)
  {
    Constraint(Minus(lhs, Num(bound)), AtLeastZero)
  }

  /** `lhs == bound`, normalised as the library stores it. */
  function Exactly(lhs: Expr, bound: real): (c: Constraint)
    ensures forall x :: Holds(c, x) <==> Eval(lhs, x) == bound
    ensures VarsOf(c.e) == VarsOf(lhs)
  {
    Constraint(Minus(lhs, Num(bound)), EqualsZero)
  }

  /** The variables an expression mentions. Multiplying by the number 0 gives the
      empty expression, so nothing under such a product is mentioned; a sum keeps
      every variable of its operands, even one whose coefficients cancel. */
  function VarsOf(e: Expr): set<Var> {
    match e
    case Num(_) => {}
    case Ref(v) => {v}
    case Add(a, b) => VarsOf(a) + VarsOf(b)
    case Times(k, a) => if k == 0.0 then {} else VarsOf(a)
  }

  lemma {:induction false} VarsOfLpSum(es: seq<Expr>, v: Var)
    ensures v in VarsOf(LpSum(es)) <==> exists i :: 0 <= i < |es| && v in VarsOf(es[i])
    decreases |es|
  {
    if |es| > 0 {
      var es' := es[..|es| - 1];
      VarsOfLpSum(es', v);
      if v in VarsOf(LpSum(es')) {
        var i :| 0 <= i < |es'| && v in VarsOf(es'[i]);
        assert es[i] == es'[i];
      }
      if exists i :: 0 <= i < |es| && v in VarsOf(es[i]) {
        var i :| 0 <= i < |es| && v in VarsOf(es[i]);
        if i < |es'| {
          assert es'[i] == es[i];
        }
      }
    }
  }

  /** The variables a list of constraints mentions. */
  function ConstraintVars(cs: seq<Constraint>): set<Var> {
    set k, v | 0 <= k < |cs| && v in VarsOf(cs[k].e) :: v
  }

  lemma ConstraintVarsAppend(a: seq<Constraint>, b: seq<Constraint>)
    ensures ConstraintVars(a + b) == ConstraintVars(a) + ConstraintVars(b)
  {
    forall v | v in ConstraintVars(a + b) ensures v in ConstraintVars(a) + ConstraintVars(b) {
      var k :| 0 <= k < |a + b| && v in VarsOf((a + b)[k].e);
      if k >= |a| {
        assert (a + b)[k] == b[k - |a|];
      }
    }
    forall v | v in ConstraintVars(b) ensures v in ConstraintVars(a + b) {
      var k :| 0 <= k < |b| && v in VarsOf(b[k].e);
      assert (a + b)[|a| + k] == b[k];
    }
    forall v | v in ConstraintVars(a) ensures v in ConstraintVars(a + b) {
      var k :| 0 <= k < |a| && v in VarsOf(a[k].e);
      assert (a + b)[k] == a[k];
    }
  }

  /** The constraint lists `css`, one after the other. */
  function Concat(css: seq<seq<Constraint>>): seq<Constraint>
    decreases |css|
  {
    if |css| == 0 then [] else Concat(css[..|css| - 1]) + css[|css| - 1]
  }

  lemma {:induction false} AllHoldConcat(css: seq<seq<Constraint>>, x: Assignment)
    ensures AllHold(Concat(css), x) <==> forall i :: 0 <= i < |css| ==> AllHold(css[i], x)
    decreases |css|
  {
    if |css| > 0 {
      var css' := css[..|css| - 1];
      AllHoldConcat(css', x);
      AllHoldAppend(Concat(css'), css[|css| - 1], x);
      assert forall i :: 0 <= i < |css'| ==> css'[i] == css[i];
    }
  }

  lemma {:induction false} ConstraintVarsConcat(css: seq<seq<Constraint>>, v: Var)
    ensures v in ConstraintVars(Concat(css)) <==> exists i :: 0 <= i < |css| && v in ConstraintVars(css[i])
    decreases |css|
  {
    if |css| > 0 {
      var css' := css[..|css| - 1];
      ConstraintVarsConcat(css', v);
      ConstraintVarsAppend(Concat(css'), css[|css| - 1]);
      if exists i :: 0 <= i < |css'| && v in ConstraintVars(css'[i]) {
        var i :| 0 <= i < |css'| && v in ConstraintVars(css'[i]);
        assert css[i] == css'[i];
      }
      if exists i :: 0 <= i < |css| && v in ConstraintVars(css[i]) {
        var i :| 0 <= i < |css| && v in ConstraintVars(css[i]);
        if i < |css'| {
          assert css'[i] == css[i];
        }
      }
    }
  }

  /** The value of an expression from the values the variables currently hold:
      undefined as soon as one variable it mentions holds none. */
  function ValueOf(e: Expr, values: map<Var, real>): (r: Option<real>)
  {
    match e
    case Num(k) => Some(k)
    case Ref(v) => if v in values then Some(values[v]) else None
    case Add(a, b) =>
      var p, q := ValueOf(a, values), ValueOf(b, values);
      if p.Some? && q.Some? then Some(p.value + q.value) else None
    case Times(k, a) =>
      if k == 0.0 then Some(0.0)
      else
        var p := ValueOf(a, values);
        if p.Some? then Some(k * p.value) else None
  }

  /** An expression has a value exactly when every variable it mentions holds one,
      and then the value is the expression's value under any assignment that agrees
      with those values. */
  lemma {:induction false} ValueOfMeaning(e: Expr, values: map<Var, real>, x: Assignment)
    requires forall v :: v in values ==> x(v) == values[v]
    ensures ValueOf(e, values).Some? <==> VarsOf(e) <= values.Keys
    ensures ValueOf(e, values).Some? ==> ValueOf(e, values).value == Eval(e, x)
  {
    match e
    case Num(_) =>
    case Ref(_) =>
    case Add(a, b) =>
      ValueOfMeaning(a, values, x);
      ValueOfMeaning(b, values, x);
    case Times(_, a) =>
      ValueOfMeaning(a, values, x);
  }

  /** The solver's outcome of a solve. */
  datatype Status = Optimal | NotSolved | Infeasible | Unbounded | Undefined
}
