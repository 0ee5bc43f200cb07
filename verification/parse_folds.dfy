/** The repetitions of the grammar as left folds over any number of
    operands: `application` over its terminals, `addend` over its
    multiplicands and `equalend` over its addends. */
module ParseFolds {
  import opened Ast
  import opened Parse
  import opened ParseProperties

  // ---------------------------------------------------------------------
  // The folds

  /** Each argument in turn is applied to what has been built so far. */
  function FoldApply(acc: Term, args: seq<Term>): Term
    decreases |args|
  {
    if args == [] then acc else FoldApply(Apply(args[0], acc), args[1..])
  }

  /** Each operator in turn combines what has been built so far, on the
      left, with its operand, on the right. */
  function FoldMath(acc: Term, ops: seq<(BinMathOp, Term)>): Term
    decreases |ops|
  {
    if ops == [] then acc else FoldMath(MathOp(ops[0].0, acc, ops[0].1), ops[1..])
  }

  /** The last argument is the outermost application: `a b … z` is
      `Apply(z, a b …)`. */
  lemma {:induction false} FoldApplyLast(acc: Term, args: seq<Term>, a: Term)
    ensures FoldApply(acc, args + [a]) == Apply(a, FoldApply(acc, args))
    decreases |args|
  {
    if args != [] {
      assert (args + [a])[1..] == args[1..] + [a];
      FoldApplyLast(Apply(args[0], acc), args[1..], a);
    }
  }

  /** The last operator is at the root: `x op1 … opn y` is
      `(x op1 …) opn y`, which is left associativity for any length. */
  lemma {:induction false} FoldMathLast(acc: Term, ops: seq<(BinMathOp, Term)>, op: BinMathOp, t: Term)
    ensures FoldMath(acc, ops + [(op, t)]) == MathOp(op, FoldMath(acc, ops), t)
    decreases |ops|
  {
    if ops != [] {
      assert (ops + [(op, t)])[1..] == ops[1..] + [(op, t)];
      FoldMathLast(MathOp(ops[0].0, acc, ops[0].1), ops[1..], op, t);
    }
  }

  // ---------------------------------------------------------------------
  // What each repetition reads

  /** From `s`, after blanks, the terminals `args` follow one another,
      blanks between them, and `rest` is what follows the last of them. */
  predicate TerminalChain(s: string, args: seq<Term>, rest: string)
    decreases |args|
  {
    if args == [] then rest == s
    else
      match ParseTerminal(Ws(s))
      case Fail(_) => false
      case Ok(a, y) => a == args[0] && TerminalChain(Ws(y), args[1..], rest)
  }

  /** From `s`, each round reads `*` or `/` and a multiplicand, giving the
      pairs `ops`; `rest` is what follows the last round. */
  predicate MulChain(s: string, ops: seq<(BinMathOp, Term)>, rest: string)
    decreases |ops|
  {
    if ops == [] then rest == s
    else
      MulNext(s) &&
      match ParseMultiplicand(Ws(AfterOp(s)))
      case Fail(_) => false
      case Ok(m, y) => ops[0] == (MulOpNext(s), m) && MulChain(Ws(y), ops[1..], rest)
  }

  /** From `s`, each round reads `+` or `-` and an addend, giving the pairs
      `ops`; `rest` is what follows the last round. */
  predicate AddChain(s: string, ops: seq<(BinMathOp, Term)>, rest: string)
    decreases |ops|
  {
    if ops == [] then rest == s
    else
      AddNext(s) &&
      match ParseAddend(Ws(AfterOp(s)))
      case Fail(_) => false
      case Ok(a, y) => ops[0] == (AddOpNext(s), a) && AddChain(y, ops[1..], rest)
  }

  // ---------------------------------------------------------------------
  // The repetitions are the folds

  /** `many0` of terminals folds every terminal it reads onto the
      accumulator and stops where the next terminal is missing. */
  lemma {:induction false} ApplicationTailFold(acc: Term, s: string, args: seq<Term>, rest: string)
    requires TerminalChain(s, args, rest)
    requires ParseTerminal(Ws(rest)).Fail?
    ensures ApplicationTail(acc, s) == (FoldApply(acc, args), rest)
    decreases |args|
  {
    if args != [] {
      match ParseTerminal(Ws(s))
      case Ok(a, y) =>
        ApplicationTailFold(Apply(a, acc), Ws(y), args[1..], rest);
    }
  }

  /** `application` is the left fold of all its terminals. */
  lemma ApplicationFold(s: string, first: Term, y: string, args: seq<Term>, rest: string)
    requires ParseTerminal(Ws(s)) == Ok(first, y)
    requires TerminalChain(y, args, rest)
    requires ParseTerminal(Ws(rest)).Fail?
    ensures ParseApplication(s) == Ok(FoldApply(first, args), Ws(rest))
  {
    ApplicationTailFold(first, y, args, rest);
  }

  /** The `*`/`/` repetition folds every round it reads onto the
      accumulator and stops where no operator follows. */
  lemma {:induction false} AddendTailFold(acc: Term, s: string, ops: seq<(BinMathOp, Term)>, rest: string)
    requires MulChain(s, ops, rest)
    requires !MulNext(rest)
    ensures AddendTail(acc, s) == (FoldMath(acc, ops), rest)
    decreases |ops|
  {
    if ops == [] {
      AddendTailStops(acc, s);
    } else {
      match ParseMultiplicand(Ws(AfterOp(s)))
      case Ok(m, y) =>
        AddendTailStep(acc, s, m, y);
        AddendTailFold(MathOp(MulOpNext(s), acc, m), Ws(y), ops[1..], rest);
    }
  }

  /** `addend` is the left fold of all its multiplicands. */
  lemma AddendFold(s: string, first: Term, y: string, ops: seq<(BinMathOp, Term)>, rest: string)
    requires ParseMultiplicand(Ws(s)) == Ok(first, y)
    requires MulChain(y, ops, rest)
    requires !MulNext(rest)
    ensures ParseAddend(s) == Ok(FoldMath(first, ops), Ws(rest))
  {
    AddendUnfold(s, first, y);
    AddendTailFold(first, y, ops, rest);
  }

  /** The `+`/`-` repetition folds every round it reads onto the
      accumulator and stops where no operator follows. */
  lemma {:induction false} EqualendTailFold(acc: Term, s: string, ops: seq<(BinMathOp, Term)>, rest: string)
    requires AddChain(s, ops, rest)
    requires !AddNext(rest)
    ensures EqualendTail(acc, s) == (FoldMath(acc, ops), rest)
    decreases |ops|
  {
    if ops == [] {
      EqualendTailStops(acc, s);
    } else {
      match ParseAddend(Ws(AfterOp(s)))
      case Ok(a, y) =>
        EqualendTailStep(acc, s, a, y);
        EqualendTailFold(MathOp(AddOpNext(s), acc, a), y, ops[1..], rest);
    }
  }

  /** `equalend` is the left fold of all its addends. */
  lemma EqualendFold(s: string, first: Term, y: string, ops: seq<(BinMathOp, Term)>, rest: string)
    requires ParseAddend(Ws(s)) == Ok(first, y)
    requires AddChain(y, ops, rest)
    requires !AddNext(rest)
    ensures ParseEqualend(s) == Ok(FoldMath(first, ops), Ws(rest))
  {
    EqualendUnfold(s, first, y);
    EqualendTailFold(first, y, ops, rest);
  }
}
