/** What the evaluator may assume of a term the type checker accepted. */
module Soundness {
  import opened Ast
  import opened Results
  import opened Evaluator
  import TypeChecker

  /** A value has a type: numbers are `Int`, booleans `Bool`, and a function
      value has exactly the `Func` type of its parameter and body. */
  predicate HasType(v: Value, ty: TypeChecker.TermType) {
    match ty
    case Int => v.Num?
    case Bool => v.Bool?
    case Func(x, body) => v == Func(x, body)
  }

  /** Every name the type environment binds is bound in the value
      environment to a value of that type. */
  predicate EnvMatches(env: EvalEnv, tenv: TypeChecker.TyEnv) {
    forall n :: n in tenv.bindings ==> n in env && HasType(env[n], tenv.bindings[n])
  }

  /** A term the checker accepts evaluates, with any fuel, to a value of its
      type, or fails only in the unsigned arithmetic (division by zero or a
      result outside 64 bits): never on an unbound variable, a non-function
      application, ill-typed operands, a non-boolean test or lack of fuel. */
  lemma {:induction false} TypeSafety(t: Term, tenv: TypeChecker.TyEnv, env: EvalEnv, fuel: nat)
    requires EnvMatches(env, tenv)
    requires TypeChecker.TypeCheck(t, tenv).Ok?
    ensures var r := Eval(t, env, fuel);
      (r.Ok? && HasType(r.value, TypeChecker.TypeCheck(t, tenv).value.0)) ||
      r == Err(DivideByZero) || r == Err(ArithmeticOverflow)
  {
    match t
    case Var(_) =>
    case Lambda(_, _) =>
    case NumConst(_) =>
    case BoolConst(_) =>
    case MathOp(_, t1, t2) =>
      TypeSafety(t1, tenv, env, fuel);
      TypeSafety(t2, tenv, env, fuel);
    case Equals(t1, t2) =>
      TypeSafety(t1, tenv, env, fuel);
      TypeSafety(t2, tenv, env, fuel);
    case NotEquals(t1, t2) =>
      TypeSafety(t1, tenv, env, fuel);
      TypeSafety(t2, tenv, env, fuel);
    case IfStmt(c, tb, eb) =>
      TypeSafety(c, tenv, env, fuel);
      TypeSafety(tb, tenv, env, fuel);
      TypeSafety(eb, tenv, env, fuel);
  }
}
