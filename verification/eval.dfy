/** The tree-walking, call-by-value evaluator.  A lambda evaluates to a
    function value that records only its parameter and body, and an applied
    body is evaluated in the caller's environment extended with the
    parameter: scoping is dynamic. */
module Evaluator {
  import opened Ast
  import opened Results

  /** What a term evaluates to.  `Assignm` wraps the value of an assignment
      statement together with the name it binds. */
  datatype Value =
    | Num(n: u64)
    | Bool(b: bool)
    | Func(name: string, funcTerm: Term)
    | Assignm(name: string, val: Value)

  /** One tag per error message of the evaluator, one per panic of the
      unsigned arithmetic, and one for running out of the fuel bound. */
  datatype EvalError =
    | VariableMissing      // the name is not bound in the environment
    | NotAFunction         // a term was applied to something that is not a function
    | MathError            // an arithmetic operand is not a number
    | BoolError            // (in)equality of a function, an assignment or mixed kinds
    | IfCondRequiresBool   // the test of an `if` is not a boolean
    | DivideByZero         // unsigned division by zero panics
    | ArithmeticOverflow   // an unsigned result outside 0 .. 2^64 - 1 panics
    | OutOfFuel            // more nested function calls than the fuel allows

  type EvalEnv = map<string, Value>

  /** The exact integer result of an operator, the reference for the
      unsigned 64-bit arithmetic. */
  function MathValue(opr: BinMathOp, a: int, b: int): int
    requires opr == Divide ==> b != 0
  {
    match opr
    case Add => a + b
    case Minus => a - b
    case Multiply => a * b
    case Divide => a / b
  }

  /** Evaluates `node` in `env`.  Every call of a function body uses one unit
      of `fuel`; nothing else does. */
  function Eval(node: Term, env: EvalEnv, fuel: nat): (r: Result<Value, EvalError>)
    ensures r == Err(OutOfFuel) ==> HasApply(node)
    decreases fuel, Size(node)
  {
    match node
    case Var(n) => if n in env then Ok(env[n]) else Err(VariableMissing)
    case Lambda(x, e) => Ok(Func(x, e))
    case Apply(arg, f) =>
      var fv :- Eval(f, env, fuel);
      if fv.Func? then
        var av :- Eval(arg, env, fuel);
        if fuel == 0 then Err(OutOfFuel)
        else Eval(fv.funcTerm, env[fv.name := av], fuel - 1)
      else Err(NotAFunction)
    case NumConst(n) => Ok(Num(n))
    case BoolConst(b) => Ok(Bool(b))
    case MathOp(opr, t1, t2) =>
      var v1 :- Eval(t1, env, fuel);
      var v2 :- Eval(t2, env, fuel);
      EvalBinMathOp(opr, v1, v2)
    case Equals(t1, t2) =>
      var v1 :- Eval(t1, env, fuel);
      var v2 :- Eval(t2, env, fuel);
      EvalEquals(v1, v2)
    case NotEquals(t1, t2) =>
      var v1 :- Eval(t1, env, fuel);
      var v2 :- Eval(t2, env, fuel);
      EvalNotEquals(v1, v2)
    case IfStmt(c, tb, eb) =>
      var cv :- Eval(c, env, fuel);
      EvalIf(cv, tb, eb, env, fuel)
    case Assignm(name, e) =>
      var v :- Eval(e, env, fuel);
      Ok(Value.Assignm(name, v))
  }

  /** An exact result as an unsigned 64-bit number, or the overflow panic
      when it lies outside 0 .. 2^64 - 1. */
  function InU64(x: int): (r: Result<Value, EvalError>)
    ensures r.Ok? <==> 0 <= x < U64_LIMIT
    ensures r.Ok? ==> r.value == Num(x)
    ensures r.Err? ==> r.error == ArithmeticOverflow
  {
    if 0 <= x < U64_LIMIT then Ok(Num(x)) else Err(ArithmeticOverflow)
  }

  /** Unsigned 64-bit arithmetic on two numbers; the checked operations of
      the source's debug build, where overflow and division by zero panic. */
  function EvalBinMathOp(opr: BinMathOp, t1: Value, t2: Value): (r: Result<Value, EvalError>)
    ensures !(t1.Num? && t2.Num?) ==> r == Err(MathError)
    ensures t1.Num? && t2.Num? && opr == Divide && t2.n == 0 ==> r == Err(DivideByZero)
    ensures t1.Num? && t2.Num? && !(opr == Divide && t2.n == 0) ==>
      var x := MathValue(opr, t1.n, t2.n);
      if 0 <= x < U64_LIMIT then r == Ok(Num(x)) else r == Err(ArithmeticOverflow)
  {
    if !(t1.Num? && t2.Num?) then Err(MathError)
    else
      match opr
      case Add => InU64(t1.n + t2.n)
      case Minus => InU64(t1.n - t2.n)
      case Multiply => InU64(t1.n * t2.n)
      case Divide => if t2.n == 0 then Err(DivideByZero) else InU64(t1.n / t2.n)
  }

  /** Equality of two numbers or of two booleans. */
  function EvalEquals(t1: Value, t2: Value): (r: Result<Value, EvalError>)
    ensures r.Ok? <==> (t1.Num? && t2.Num?) || (t1.Bool? && t2.Bool?)
    ensures r.Ok? ==> r.value == Bool(t1 == t2)
    ensures r.Err? ==> r.error == BoolError
  {
    match (t1, t2)
    case (Num(n1), Num(n2)) => Ok(Bool(n1 == n2))
    case (Bool(b1), Bool(b2)) => Ok(Bool(b1 == b2))
    case _ => Err(BoolError)
  }

  /** Inequality: defined on the same operands as equality, with the
      opposite answer. */
  function EvalNotEquals(t1: Value, t2: Value): (r: Result<Value, EvalError>)
    ensures r.Ok? <==> EvalEquals(t1, t2).Ok?
    ensures r.Ok? ==> r.value == Bool(!EvalEquals(t1, t2).value.b)
    ensures r.Err? ==> r == EvalEquals(t1, t2)
  {
    match (t1, t2)
    case (Num(n1), Num(n2)) => Ok(Bool(n1 != n2))
    case (Bool(b1), Bool(b2)) => Ok(Bool(b1 != b2))
    case _ => Err(BoolError)
  }

  /** Evaluates exactly one branch, chosen by the value of the test. */
  function EvalIf(test: Value, thenBody: Term, elseBody: Term, env: EvalEnv, fuel: nat): (r: Result<Value, EvalError>)
    ensures test.Bool? ==> r == Eval(if test.b then thenBody else elseBody, env, fuel)
    ensures !test.Bool? ==> r == Err(IfCondRequiresBool)
    ensures r == Err(OutOfFuel) ==> HasApply(thenBody) || HasApply(elseBody)
    decreases fuel, Size(thenBody) + Size(elseBody) + 1
  {
    match test
    case Bool(true) => Eval(thenBody, env, fuel)
    case Bool(false) => Eval(elseBody, env, fuel)
    case _ => Err(IfCondRequiresBool)
  }

  // ---------------------------------------------------------------------
  // Properties

  /** Fuel only bounds the depth of function calls: an evaluation that did
      not run out of fuel gives the same answer with any larger bound. */
  lemma {:induction false} EvalFuelMonotone(node: Term, env: EvalEnv, fuel: nat, more: nat)
    requires fuel <= more
    requires Eval(node, env, fuel) != Err(OutOfFuel)
    ensures Eval(node, env, more) == Eval(node, env, fuel)
    decreases fuel, Size(node)
  {
    match node
    case Var(_) =>
    case Lambda(_, _) =>
    case NumConst(_) =>
    case BoolConst(_) =>
    case Apply(arg, f) => EvalFuelMonotoneApply(arg, f, env, fuel, more);
    case MathOp(_, t1, t2) => EvalFuelMonotoneOperands(node, t1, t2, env, fuel, more);
    case Equals(t1, t2) => EvalFuelMonotoneOperands(node, t1, t2, env, fuel, more);
    case NotEquals(t1, t2) => EvalFuelMonotoneOperands(node, t1, t2, env, fuel, more);
    case IfStmt(c, tb, eb) =>
      EvalFuelMonotone(c, env, fuel, more);
      var cv := Eval(c, env, fuel);
      if cv == Ok(Bool(true)) {
        EvalFuelMonotone(tb, env, fuel, more);
      } else if cv == Ok(Bool(false)) {
        EvalFuelMonotone(eb, env, fuel, more);
      }
    case Assignm(_, e) =>
      EvalFuelMonotone(e, env, fuel, more);
  }

  lemma {:induction false} EvalFuelMonotoneApply(arg: Term, f: Term, env: EvalEnv, fuel: nat, more: nat)
    requires fuel <= more
    requires Eval(Apply(arg, f), env, fuel) != Err(OutOfFuel)
    ensures Eval(Apply(arg, f), env, more) == Eval(Apply(arg, f), env, fuel)
    decreases fuel, Size(Apply(arg, f)), 0
  {
    EvalFuelMonotone(f, env, fuel, more);
    var fv := Eval(f, env, fuel);
    if fv.Ok? && fv.value.Func? {
      EvalFuelMonotone(arg, env, fuel, more);
      var av := Eval(arg, env, fuel);
      if av.Ok? {
        assert fuel > 0;
        var envx := env[fv.value.name := av.value];
        EvalFuelMonotone(fv.value.funcTerm, envx, fuel - 1, more - 1);
        assert Eval(Apply(arg, f), env, more) == Eval(fv.value.funcTerm, envx, more - 1);
      }
    }
  }

  /** The shared case of the binary operators: both operands are evaluated
      in order, and the first error wins. */
  lemma {:induction false} EvalFuelMonotoneOperands(node: Term, t1: Term, t2: Term, env: EvalEnv, fuel: nat, more: nat)
    requires node.MathOp? || node.Equals? || node.NotEquals?
    requires (node.MathOp? ==> node.t1 == t1 && node.t2 == t2)
    requires (!node.MathOp? ==> node.leftSide == t1 && node.rightSide == t2)
    requires fuel <= more
    requires Eval(node, env, fuel) != Err(OutOfFuel)
    ensures Eval(node, env, more) == Eval(node, env, fuel)
    decreases fuel, Size(node), 0
  {
    EvalFuelMonotone(t1, env, fuel, more);
    if Eval(t1, env, fuel).Ok? {
      EvalFuelMonotone(t2, env, fuel, more);
    }
  }

  /** An application evaluates the function first and the argument second,
      both in the caller's environment, and then the body in that same
      environment with only the parameter rebound. */
  lemma EvalApply(arg: Term, f: Term, env: EvalEnv, fuel: nat, x: string, body: Term, v: Value)
    requires Eval(f, env, fuel + 1) == Ok(Func(x, body))
    requires Eval(arg, env, fuel + 1) == Ok(v)
    ensures Eval(Apply(arg, f), env, fuel + 1) == Eval(body, env[x := v], fuel)
  {
  }

  /** Constants evaluate to themselves and a lambda to its function value
      in every environment; a variable reads its binding; an assignment
      wraps the value of its right-hand side with the name. */
  lemma EvalLeaves(env: EvalEnv, fuel: nat, n: u64, b: bool, name: string, x: string, body: Term, e: Term, v: Value)
    ensures Eval(NumConst(n), env, fuel) == Ok(Num(n))
    ensures Eval(BoolConst(b), env, fuel) == Ok(Bool(b))
    ensures Eval(Var(name), env, fuel).Ok? <==> name in env
    ensures name in env ==> Eval(Var(name), env, fuel).value == env[name]
    ensures name !in env ==> Eval(Var(name), env, fuel).error == VariableMissing
    ensures Eval(Lambda(x, body), env, fuel) == Ok(Func(x, body))
    ensures Eval(e, env, fuel) == Ok(v) ==> Eval(Term.Assignm(x, e), env, fuel) == Ok(Value.Assignm(x, v))
  {
  }

  /** Subterms are evaluated left to right and the first error is the
      answer: an error in the first subterm is the error of every compound
      term, whatever its other subterms would give. */
  lemma EvalFirstErrorWins(t1: Term, t2: Term, opr: BinMathOp, x: string, env: EvalEnv, fuel: nat)
    requires Eval(t1, env, fuel).Err?
    ensures Eval(MathOp(opr, t1, t2), env, fuel) == Eval(t1, env, fuel)
    ensures Eval(Equals(t1, t2), env, fuel) == Eval(t1, env, fuel)
    ensures Eval(NotEquals(t1, t2), env, fuel) == Eval(t1, env, fuel)
    ensures Eval(IfStmt(t1, t2, t2), env, fuel) == Eval(t1, env, fuel)
    ensures Eval(Term.Assignm(x, t1), env, fuel) == Eval(t1, env, fuel)
    ensures Eval(Apply(t2, t1), env, fuel) == Eval(t1, env, fuel)
  {
  }

  /** When the first operand succeeds, an error in the second is the error
      of the operator. */
  lemma EvalSecondErrorWins(t1: Term, t2: Term, opr: BinMathOp, env: EvalEnv, fuel: nat)
    requires Eval(t1, env, fuel).Ok? && Eval(t2, env, fuel).Err?
    ensures Eval(MathOp(opr, t1, t2), env, fuel) == Eval(t2, env, fuel)
    ensures Eval(Equals(t1, t2), env, fuel) == Eval(t2, env, fuel)
    ensures Eval(NotEquals(t1, t2), env, fuel) == Eval(t2, env, fuel)
  {
  }

  /** A conditional evaluates its test first and then exactly one branch:
      the then-branch on `true`, the else-branch on `false`. */
  lemma EvalIfSelects(c: Term, tb: Term, eb: Term, env: EvalEnv, fuel: nat, b: bool)
    requires Eval(c, env, fuel) == Ok(Bool(b))
    ensures Eval(IfStmt(c, tb, eb), env, fuel) == if b then Eval(tb, env, fuel) else Eval(eb, env, fuel)
  {
  }

  /** Applying a term that evaluates to something other than a function is
      an error, decided before the argument is evaluated. */
  lemma EvalApplyNotFunction(arg: Term, f: Term, env: EvalEnv, fuel: nat)
    requires Eval(f, env, fuel).Ok? && !Eval(f, env, fuel).value.Func?
    ensures Eval(Apply(arg, f), env, fuel) == Err(NotAFunction)
  {
  }

  /** Scoping is dynamic: a function value does not remember the bindings of
      the place where its lambda was evaluated.  With `x` bound to 5, the
      lambda `\y . y + x` evaluates to a function value; applying that value
      to 1 after `x` has been rebound to 100 gives 101, not 6. */
  lemma DynamicScoping()
    ensures var body := MathOp(Add, Var("y"), Var("x"));
      var f := Eval(Lambda("y", body), map["x" := Num(5)], 0);
      f == Ok(Func("y", body)) &&
      Eval(Apply(NumConst(1), Var("f")), map["x" := Num(100), "f" := f.value], 1) == Ok(Num(101))
  {
    var body := MathOp(Add, Var("y"), Var("x"));
    var env := map["x" := Num(100), "f" := Func("y", body)];
    assert Eval(body, env["y" := Num(1)], 0) == Ok(Num(101));
  }

  /** The evaluator's unit tests for constants and the four operators. */
  lemma EvalMathUnitTests()
    ensures Eval(NumConst(1), map[], 0) == Ok(Num(1))
    ensures Eval(BoolConst(true), map[], 0) == Ok(Bool(true))
    ensures Eval(MathOp(Minus, NumConst(6), NumConst(4)), map[], 0) == Ok(Num(2))
    ensures Eval(MathOp(Add, NumConst(4), NumConst(6)), map[], 0) == Ok(Num(10))
    ensures Eval(MathOp(Multiply, NumConst(6), NumConst(4)), map[], 0) == Ok(Num(24))
    ensures Eval(MathOp(Divide, NumConst(6), NumConst(3)), map[], 0) == Ok(Num(2))
    ensures Eval(MathOp(Divide, BoolConst(true), NumConst(3)), map[], 0) == Err(MathError)
    ensures Eval(MathOp(Divide, NumConst(3), BoolConst(true)), map[], 0) == Err(MathError)
    ensures Eval(MathOp(Divide, NumConst(5), NumConst(0)), map[], 0) == Err(DivideByZero)
  {
  }

  /** The evaluator's unit tests for equality and inequality. */
  lemma EvalLogicUnitTests()
    ensures Eval(Equals(NumConst(4), NumConst(6)), map[], 0) == Ok(Bool(false))
    ensures Eval(Equals(NumConst(6), NumConst(6)), map[], 0) == Ok(Bool(true))
    ensures Eval(NotEquals(BoolConst(false), BoolConst(false)), map[], 0) == Ok(Bool(false))
    ensures Eval(NotEquals(BoolConst(true), BoolConst(false)), map[], 0) == Ok(Bool(true))
    ensures Eval(NotEquals(NumConst(1), BoolConst(false)), map[], 0) == Err(BoolError)
  {
  }

  /** The evaluator's unit tests for conditionals. */
  lemma EvalIfUnitTests()
    ensures Eval(IfStmt(BoolConst(true), NumConst(6), NumConst(7)), map[], 0) == Ok(Num(6))
    ensures Eval(IfStmt(NumConst(1), NumConst(6), NumConst(7)), map[], 0) == Err(IfCondRequiresBool)
    ensures Eval(IfStmt(BoolConst(false), NumConst(6), NumConst(7)), map[], 0) == Ok(Num(7))
  {
  }
}
