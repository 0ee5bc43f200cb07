/** The structural type checker.  A lambda has the type `Func` of its own
    parameter and (unchecked) body; applications and assignments are not
    accepted at all. */
module TypeChecker {
  import opened Ast
  import opened Results

  datatype TermType = Int | Bool | Func(name: string, t1: Term)

  /** One tag per error message of the type checker. */
  datatype TypeError =
    | DoesNotExist      // the variable is not bound in the type environment
    | MathOperands      // an arithmetic operand is not an integer
    | LogicOperands     // (in)equality operands are not both integers or both booleans
    | IfCondition       // the test of an `if` is not a boolean
    | TypesDoNotMatch   // the branches of an `if` have different types
    | InvalidTerm       // an application or an assignment

  /** A binding between names and types. */
  datatype TyEnv = TyEnv(bindings: map<string, TermType>) {

    /** The type bound to `name`, or an error when there is none. */
    function GetVal(name: string): (r: Result<TermType, TypeError>)
      ensures r.Ok? <==> name in bindings
      ensures r.Ok? ==> r.value == bindings[name]
      ensures r.Err? ==> r.error == DoesNotExist
    {
      if name in bindings then Ok(bindings[name]) else Err(DoesNotExist)
    }
  }

  /** The checker's answer: a type, together with the environment it was
      checked in. */
  type Checked = Result<(TermType, TyEnv), TypeError>

  /** Checks `term` in `env`.  Operands are checked left to right before the
      operator's own rule is applied, so the first failing operand decides
      the error. */
  function TypeCheck(term: Term, env: TyEnv): (r: Checked)
    ensures r.Ok? ==> r.value.1 == env
    ensures r.Ok? ==> !HasApply(term) && !HasAssignm(term)
  {
    match term
    case Var(n) =>
      var ty :- env.GetVal(n);
      Ok((ty, env))
    case Lambda(v, e) => Ok((Func(v, e), env))
    case NumConst(_) => Ok((Int, env))
    case BoolConst(_) => Ok((Bool, env))
    case MathOp(_, t1, t2) =>
      var c1 :- TypeCheck(t1, env);
      var c2 :- TypeCheck(t2, env);
      TypeCheckBinMathOp(c1.0, c2.0, env)
    case Equals(t1, t2) =>
      var c1 :- TypeCheck(t1, env);
      var c2 :- TypeCheck(t2, env);
      TypeCheckBinLogicOp(c1.0, c2.0, env)
    case NotEquals(t1, t2) =>
      var c1 :- TypeCheck(t1, env);
      var c2 :- TypeCheck(t2, env);
      TypeCheckBinLogicOp(c1.0, c2.0, env)
    case IfStmt(c, tb, eb) =>
      var cc :- TypeCheck(c, env);
      var ct :- TypeCheck(tb, env);
      var ce :- TypeCheck(eb, env);
      TypeCheckIf(cc.0, ct.0, ce.0, env)
    case Apply(_, _) => Err(InvalidTerm)
    case Assignm(_, _) => Err(InvalidTerm)
  }

  /** Arithmetic takes two integers to an integer. */
  function TypeCheckBinMathOp(t1: TermType, t2: TermType, env: TyEnv): (r: Checked)
    ensures r.Ok? <==> t1 == Int && t2 == Int
    ensures r.Ok? ==> r.value == (Int, env)
    ensures r.Err? ==> r.error == MathOperands
  {
    match (t1, t2)
    case (Int, Int) => Ok((Int, env))
    case _ => Err(MathOperands)
  }

  /** (In)equality takes two integers or two booleans to a boolean; function
      types are never comparable. */
  function TypeCheckBinLogicOp(t1: TermType, t2: TermType, env: TyEnv): (r: Checked)
    ensures r.Ok? <==> t1 == t2 && !t1.Func?
    ensures r.Ok? ==> r.value == (Bool, env)
    ensures r.Err? ==> r.error == LogicOperands
  {
    match (t1, t2)
    case (Int, Int) => Ok((Bool, env))
    case (Bool, Bool) => Ok((Bool, env))
    case _ => Err(LogicOperands)
  }

  /** A conditional needs a boolean test and has the common type of its
      branches. */
  function TypeCheckIf(c: TermType, tb: TermType, eb: TermType, env: TyEnv): (r: Checked)
    ensures r.Ok? <==> c == Bool && tb == eb
    ensures r.Ok? ==> r.value == (tb, env)
    ensures r.Err? ==> r.error == (if c == Bool then TypesDoNotMatch else IfCondition)
  {
    match c
    case Bool => MatchType(tb, eb, env)
    case _ => Err(IfCondition)
  }

  /** Two types match when they are structurally equal; a `Func` type is
      compared by parameter name and body term. */
  function MatchType(t1: TermType, t2: TermType, env: TyEnv): (r: Checked)
    ensures r.Ok? <==> t1 == t2
    ensures r.Ok? ==> r.value == (t1, env)
    ensures r.Err? ==> r.error == TypesDoNotMatch
  {
    if t1 == t2 then Ok((t1, env)) else Err(TypesDoNotMatch)
  }

  // ---------------------------------------------------------------------
  // Properties

  /** `big` binds every name of `small` to the same type. */
  predicate Extends(big: TyEnv, small: TyEnv) {
    forall n :: n in small.bindings ==> n in big.bindings && big.bindings[n] == small.bindings[n]
  }

  /** Adding bindings never changes the type of a term that already checks,
      so a statement keeps its type as the environment grows. */
  lemma {:induction false} TypeCheckWeakening(term: Term, small: TyEnv, big: TyEnv)
    requires Extends(big, small)
    requires TypeCheck(term, small).Ok?
    ensures TypeCheck(term, big).Ok?
    ensures TypeCheck(term, big).value.0 == TypeCheck(term, small).value.0
  {
    match term
    case Var(_) =>
    case Lambda(_, _) =>
    case NumConst(_) =>
    case BoolConst(_) =>
    case MathOp(_, t1, t2) =>
      TypeCheckWeakening(t1, small, big);
      TypeCheckWeakening(t2, small, big);
    case Equals(t1, t2) =>
      TypeCheckWeakening(t1, small, big);
      TypeCheckWeakening(t2, small, big);
    case NotEquals(t1, t2) =>
      TypeCheckWeakening(t1, small, big);
      TypeCheckWeakening(t2, small, big);
    case IfStmt(c, tb, eb) =>
      TypeCheckWeakening(c, small, big);
      TypeCheckWeakening(tb, small, big);
      TypeCheckWeakening(eb, small, big);
  }

  /** Constants have their own types and a lambda the function type of its
      parameter and body in every environment, which is returned unchanged;
      a variable has the type it is bound to, and is an error when unbound. */
  lemma TypeCheckLeaves(env: TyEnv, n: u64, b: bool, name: string, x: string, body: Term)
    ensures TypeCheck(NumConst(n), env) == Ok((Int, env))
    ensures TypeCheck(BoolConst(b), env) == Ok((Bool, env))
    ensures TypeCheck(Var(name), env).Ok? <==> name in env.bindings
    ensures name in env.bindings ==> TypeCheck(Var(name), env) == Ok((env.bindings[name], env))
    ensures name !in env.bindings ==> TypeCheck(Var(name), env) == Err(DoesNotExist)
    ensures TypeCheck(Lambda(x, body), env) == Ok((Func(x, body), env))
  {
  }

  /** Examples of the checker's rules: a constant, an unbound and a bound
      variable, and a lambda. */
  lemma TypeCheckExamples()
    ensures TypeCheck(NumConst(3), TyEnv(map[])) == Ok((Int, TyEnv(map[])))
    ensures TypeCheck(Var("v1"), TyEnv(map[])) == Err(DoesNotExist)
    ensures TypeCheck(Var("v1"), TyEnv(map["v1" := Int])) == Ok((Int, TyEnv(map["v1" := Int])))
    ensures TypeCheck(Lambda("x", Var("x")), TyEnv(map[])) == Ok((Func("x", Var("x")), TyEnv(map[])))
  {
  }

  /** Examples of the checker's errors: mismatched equality, a non-boolean
      test, branches of different types, and a rejected application. */
  lemma TypeCheckErrorExamples()
    ensures TypeCheck(Equals(BoolConst(true), NumConst(1)), TyEnv(map[])) == Err(LogicOperands)
    ensures TypeCheck(IfStmt(NumConst(3), NumConst(1), NumConst(2)), TyEnv(map[])) == Err(IfCondition)
    ensures TypeCheck(IfStmt(BoolConst(true), NumConst(1), BoolConst(false)), TyEnv(map[])) == Err(TypesDoNotMatch)
    ensures TypeCheck(Apply(NumConst(1), Lambda("x", Var("x"))), TyEnv(map[])) == Err(InvalidTerm)
  {
  }
}
