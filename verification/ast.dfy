/** The abstract syntax of the language: one recursive term tree shared by the
    parser, the type checker and the evaluator. */
module Ast {

  /** One more than the largest unsigned 64-bit integer. */
  const U64_LIMIT: int := 0x1_0000_0000_0000_0000

  /** The payload of a numeric constant and of a numeric value. */
  type u64 = x: int | 0 <= x < U64_LIMIT

  /** The four binary arithmetic operators. */
  datatype BinMathOp = Add | Minus | Multiply | Divide

  /** A term owns its children, so every term is a finite tree and Dafny's
      structural order on it is well founded.  Equality is structural. */
  datatype Term =
    | Var(name: string)
    | Lambda(varName: string, expr: Term)
      /** `varTerm` is the argument and `func` the term applied to it. */
    | Apply(varTerm: Term, func: Term)
    | NumConst(n: u64)
    | BoolConst(b: bool)
    | MathOp(opr: BinMathOp, t1: Term, t2: Term)
    | IfStmt(test: Term, thenBody: Term, elseBody: Term)
    | Equals(leftSide: Term, rightSide: Term)
    | NotEquals(leftSide: Term, rightSide: Term)
    | Assignm(varName: string, expr: Term)

  /** The number of nodes of a term; every node counts, so a composite term is
      strictly larger than each of its children. */
  function Size(t: Term): (n: nat)
    ensures n >= 1
    ensures match t
      case Var(_) => true
      case NumConst(_) => true
      case BoolConst(_) => true
      case Lambda(_, e) => n > Size(e)
      case Assignm(_, e) => n > Size(e)
      case Apply(a, f) => n > Size(a) + Size(f)
      case MathOp(_, a, b) => n > Size(a) + Size(b)
      case Equals(a, b) => n > Size(a) + Size(b)
      case NotEquals(a, b) => n > Size(a) + Size(b)
      case IfStmt(c, a, b) => n > Size(c) + Size(a) + Size(b)
  {
    match t
    case Var(_) => 1
    case NumConst(_) => 1
    case BoolConst(_) => 1
    case Lambda(_, e) => 1 + Size(e)
    case Assignm(_, e) => 1 + Size(e)
    case Apply(a, f) => 1 + Size(a) + Size(f)
    case MathOp(_, a, b) => 1 + Size(a) + Size(b)
    case Equals(a, b) => 1 + Size(a) + Size(b)
    case NotEquals(a, b) => 1 + Size(a) + Size(b)
    case IfStmt(c, a, b) => 1 + Size(c) + Size(a) + Size(b)
  }

  /** The term has an application node that is not inside a lambda body, so
      evaluating it may call a function. */
  predicate HasApply(t: Term) {
    match t
    case Apply(_, _) => true
    case Var(_) => false
    case Lambda(_, _) => false
    case NumConst(_) => false
    case BoolConst(_) => false
    case MathOp(_, a, b) => HasApply(a) || HasApply(b)
    case IfStmt(c, a, b) => HasApply(c) || HasApply(a) || HasApply(b)
    case Equals(a, b) => HasApply(a) || HasApply(b)
    case NotEquals(a, b) => HasApply(a) || HasApply(b)
    case Assignm(_, e) => HasApply(e)
  }

  /** The term has an assignment node that is not inside a lambda body. */
  predicate HasAssignm(t: Term) {
    match t
    case Assignm(_, _) => true
    case Var(_) => false
    case Lambda(_, _) => false
    case NumConst(_) => false
    case BoolConst(_) => false
    case Apply(a, f) => HasAssignm(a) || HasAssignm(f)
    case MathOp(_, a, b) => HasAssignm(a) || HasAssignm(b)
    case IfStmt(c, a, b) => HasAssignm(c) || HasAssignm(a) || HasAssignm(b)
    case Equals(a, b) => HasAssignm(a) || HasAssignm(b)
    case NotEquals(a, b) => HasAssignm(a) || HasAssignm(b)
  }
}
