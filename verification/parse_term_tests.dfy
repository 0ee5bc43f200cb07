/** The parser's term-level unit tests, as lemmas about the model.  Each
    test is proved in two steps: a lemma over the suffixes of the input,
    linked character by character, and the test itself, which supplies
    the literal.  The suffix lemma reads its input with the character
    steps below, each of which turns the shape of a short stretch of
    input into facts about the parser there, and assembles the tree with
    the composition steps, which know nothing of characters. */
module ParseTermTests {
  import opened Ast
  import opened Parse
  import opened ParseProperties
  import opened ParseFolds
  import opened ParseTests

  // ---------------------------------------------------------------------
  // Character steps

  /** A blank before `u`, which starts with no blank, is skipped. */
  lemma BlankThen(u: string)
    requires u == [] || !IsWs(u[0])
    ensures Ws([' '] + u) == u
  {
    assert ([' '] + u)[1..] == u;
  }

  /** The operator character `c` and a blank before `t`: the input is
      already at the operator, and the operand after it starts at `t`. */
  lemma OperatorThen(u: string, c: char, t: string)
    requires u == [c, ' '] + t && !IsWs(c)
    requires t == [] || !IsWs(t[0])
    ensures Ws(u) == u && Ws(AfterOp(u)) == t
  {
    assert u[1..] == [' '] + t;
    BlankThen(t);
  }

  /** `+ ` or `- ` before `t`: a round of `addend`'s repetition. */
  lemma AddOperator(u: string, c: char, t: string)
    requires (c == '+' || c == '-') && u == [c, ' '] + t
    requires t == [] || !IsWs(t[0])
    ensures Ws(u) == u && Ws(AfterOp(u)) == t
    ensures AddNext(u) && AddOpNext(u) == (if c == '+' then Add else Minus)
    ensures ParseTerminal(u).Fail? && !MulNext(u)
  {
    OperatorThen(u, c, t);
    TerminalRefuses(u);
  }

  /** `* ` or `/ ` before `t`: a round of `multiplicand`'s repetition. */
  lemma MulOperator(u: string, c: char, t: string)
    requires (c == '*' || c == '/') && u == [c, ' '] + t
    requires t == [] || !IsWs(t[0])
    ensures Ws(u) == u && Ws(AfterOp(u)) == t
    ensures MulNext(u) && MulOpNext(u) == (if c == '*' then Multiply else Divide)
    ensures ParseTerminal(u).Fail?
  {
    OperatorThen(u, c, t);
    TerminalRefuses(u);
  }

  /** `== ` before `t`: a comparison, which ends every repetition. */
  lemma EqualsOperator(u: string, t: string)
    requires u == ['=', '=', ' '] + t
    requires t == [] || !IsWs(t[0])
    ensures Ws(u) == u && StartsWith(u, "==") && Ws(u[2..]) == t
    ensures ParseTerminal(u).Fail? && !MulNext(u) && !AddNext(u)
  {
    EqualsChars(u, t);
    BlankThen(t);
    TerminalRefuses(u);
  }

  /** The characters of `== ` before `t`. */
  lemma EqualsChars(u: string, t: string)
    requires u == ['=', '=', ' '] + t
    ensures u != [] && u[0] == '=' && Ws(u) == u && StartsWith(u, "==")
    ensures u[2..] == [' '] + t
  {
    assert u[..2] == "==";
  }

  /** A keyword of the conditional other than `if` starts with a letter
      that is neither a blank nor an operator. */
  lemma KeywordChars(y: string, i: nat, rest: string)
    requires 1 <= i < 4 && y == Reserved[i] + rest
    ensures y != [] && !IsWs(y[0]) && Ws(y) == y && !MulNext(y) && !AddNext(y)
    ensures !StartsWith(y, "==") && !StartsWith(y, "!=")
  {
    assert y[0] == Reserved[i][0] by { assert i == 1 || i == 2 || i == 3; }
    assert y[0] == 't' || y[0] == 'e';
    if |y| >= 2 { assert y[..2][0] == y[0]; }
  }

  /** A keyword of the conditional other than `if` ends every repetition
      and every term. */
  lemma KeywordAhead(y: string, i: nat, rest: string)
    requires 1 <= i < 4 && y == Reserved[i] + rest
    ensures y != [] && !IsWs(y[0]) && Ws(y) == y && ParseTerminal(y).Fail?
    ensures !MulNext(y) && !AddNext(y) && !StartsWith(y, "==") && !StartsWith(y, "!=")
  {
    KeywordChars(y, i, rest);
    TerminalRefusesKeyword(i, rest);
  }

  /** A one-digit number followed by no further digit is a terminal. */
  lemma DigitTerminal(s: string, d: char, rest: string)
    requires IsDigit(d) && s == [d] + rest
    requires rest == [] || !IsDigit(rest[0])
    ensures ParseTerminal(s) == Ok(NumConst(DigitValue(d)), rest)
    ensures !StartsWith(s, "if")
  {
    OneDigit(d);
    NumberReadsDigits([d], rest);
    DigitNotIf(s, d);
  }

  /** A single digit is a run of digits whose value is the digit's. */
  lemma OneDigit(d: char)
    requires IsDigit(d)
    ensures [d] != [] && forall i :: 0 <= i < |[d]| ==> IsDigit([d][i])
    ensures DecimalValue([d]) == DigitValue(d) < U64_LIMIT
  {
    assert [d][..0] == [];
  }

  /** An input starting with a digit does not start with `if`. */
  lemma DigitNotIf(s: string, d: char)
    requires IsDigit(d) && s != [] && s[0] == d
    ensures !StartsWith(s, "if")
  {
    if |s| >= 2 { assert s[..2][0] == d; }
  }

  /** An identifier that starts no keyword and is followed by a
      non-identifier character is a terminal. */
  lemma VariableTerminal(s: string, x: string, rest: string)
    requires s == x + rest && IsIdentifier(x)
    requires x[0] != 'i' && x[0] != 't' && x[0] != 'e' && x[0] != 'f'
    requires rest == [] || !IsIdentChar(rest[0])
    ensures ParseVariable(s) == Ok(Var(x), rest)
    ensures ParseTerminal(s) == Ok(Var(x), rest)
    ensures !StartsWith(s, "if") && Ws(s) == s
  {
    assert s[0] == x[0];
    NotReservedStart(s);
    VariableReadsIdentifier(x, rest);
    TerminalOfVariable(s);
    if |s| >= 2 { assert s[..2][0] == x[0]; }
  }

  /** A one-digit number and a blank before `u`, where neither a terminal
      nor `*`/`/` follows: the number is a whole addend. */
  lemma DigitAddend(s: string, d: char, u: string)
    requires IsDigit(d) && s == [d, ' '] + u && (u == [] || !IsWs(u[0]))
    requires ParseTerminal(u).Fail? && !MulNext(u)
    ensures ParseAddend(s) == Ok(NumConst(DigitValue(d)), u)
    ensures Ws(s) == s
  {
    DigitBlank(s, d, u);
    TerminalAddend(s, NumConst(DigitValue(d)), [' '] + u);
  }

  /** A one-digit number and a blank before `u`, where no terminal
      follows: the number is a whole multiplicand. */
  lemma DigitMultiplicand(s: string, d: char, u: string)
    requires IsDigit(d) && s == [d, ' '] + u && (u == [] || !IsWs(u[0]))
    requires ParseTerminal(u).Fail?
    ensures ParseMultiplicand(s) == Ok(NumConst(DigitValue(d)), u)
    ensures Ws(s) == s
  {
    DigitBlank(s, d, u);
    TerminalIsMultiplicand(s, NumConst(DigitValue(d)), [' '] + u, u);
  }

  /** A digit followed by a blank is a terminal, with the blank left over. */
  lemma DigitBlank(s: string, d: char, u: string)
    requires IsDigit(d) && s == [d, ' '] + u && (u == [] || !IsWs(u[0]))
    ensures !StartsWith(s, "if") && ParseTerminal(s) == Ok(NumConst(DigitValue(d)), [' '] + u)
    ensures Ws([' '] + u) == u
  {
    assert s == [d] + ([' '] + u);
    DigitTerminal(s, d, [' '] + u);
    BlankThen(u);
  }

  /** A one-digit number at the end of the input is a whole multiplicand
      and a whole addend. */
  lemma DigitLast(s: string, d: char)
    requires IsDigit(d) && (s == [d] || s == [d, ' '] || s == [d, ' ', ' '])
    ensures ParseMultiplicand(s) == Ok(NumConst(DigitValue(d)), [])
    ensures ParseAddend(s) == Ok(NumConst(DigitValue(d)), [])
    ensures Ws(s) == s
  {
    var rest := s[1..];
    assert s == [d] + rest;
    assert Ws(rest) == [] by {
      if rest != [] { assert rest[1..] == [] || rest[1..] == [' ']; }
    }
    DigitTerminal(s, d, rest);
    TerminalRefuses([]);
    TerminalMultiplicand(s, NumConst(DigitValue(d)), rest);
    TerminalAddend(s, NumConst(DigitValue(d)), rest);
  }

  /** A blank, `true` or `false` and a blank before `y`: the literal is a
      terminal, and the input after the first blank starts with it. */
  lemma BooleanThen(s: string, s1: string, b: bool, y: string)
    requires s == [' '] + s1 && s1 == (if b then "true" else "false") + [' '] + y
    requires y == [] || !IsWs(y[0])
    ensures Ws(s) == s1 && !StartsWith(s1, "if")
    ensures ParseTerminal(s1) == Ok(BoolConst(b), [' '] + y) && Ws([' '] + y) == y
  {
    var w := if b then "true" else "false";
    assert s1 == w + ([' '] + y);
    assert s1[0] == w[0];
    BlankThen(s1);
    BooleanTerminal(b, [' '] + y);
    BlankThen(y);
    if |s1| >= 2 { assert s1[..2][0] == s1[0]; }
  }

  // ---------------------------------------------------------------------
  // Composition steps

  /** A terminal followed by neither another terminal nor `*`/`/` is a
      whole addend. */
  lemma TerminalAddend(s: string, t: Term, rest: string)
    requires !StartsWith(s, "if")
    requires ParseTerminal(s) == Ok(t, rest)
    requires ParseTerminal(Ws(rest)).Fail? && !MulNext(rest)
    ensures ParseAddend(s) == Ok(t, Ws(rest))
    ensures Ws(s) == s
  {
    TerminalMultiplicand(s, t, rest);
    TerminalStart(s);
    WsIdem(rest);
    AddendOfMultiplicand(s, t, Ws(rest));
  }

  /** A terminal, not `if`, followed by blanks and no further terminal is
      a whole multiplicand. */
  lemma TerminalIsMultiplicand(s: string, t: Term, r: string, u: string)
    requires !StartsWith(s, "if") && ParseTerminal(s) == Ok(t, r)
    requires Ws(r) == u && ParseTerminal(u).Fail?
    ensures ParseMultiplicand(s) == Ok(t, u) && Ws(s) == s
  {
    TerminalMultiplicand(s, t, r);
    TerminalStart(s);
  }

  /** Two multiplicands joined by `*` or `/`, with no further round, are an
      addend. */
  lemma ProductOfTwo(s: string, a: Term, x: string, t: string, b: Term, z: string)
    requires Ws(s) == s && ParseMultiplicand(s) == Ok(a, x)
    requires MulNext(x) && Ws(AfterOp(x)) == t && ParseMultiplicand(t) == Ok(b, z)
    requires !MulNext(z) && Ws(z) == z
    ensures ParseAddend(s) == Ok(MathOp(MulOpNext(x), a, b), z)
  {
    AddendTailStep(a, x, b, z);
    AddendTailStops(MathOp(MulOpNext(x), a, b), z);
    AddendUnfold(s, a, x);
  }

  /** Two addends joined by `+` or `-`, with no further round, are an
      equalend. */
  lemma SumOfTwo(s: string, a: Term, x: string, t: string, b: Term, z: string)
    requires Ws(s) == s && ParseAddend(s) == Ok(a, x)
    requires AddNext(x) && Ws(AfterOp(x)) == t && ParseAddend(t) == Ok(b, z)
    requires !AddNext(z)
    ensures ParseEqualend(s) == Ok(MathOp(AddOpNext(x), a, b), z)
  {
    EqualendTailStep(a, x, b, z);
    EqualendTailStops(MathOp(AddOpNext(x), a, b), z);
    EqualendUnfold(s, a, x);
    assert Ws(z) == z;
  }

  /** Three addends joined by `+` or `-` are an equalend that groups to
      the left. */
  lemma SumOfThree(s: string, a: Term, x1: string, t1: string, b: Term, x2: string, t2: string, c: Term, z: string)
    requires Ws(s) == s && ParseAddend(s) == Ok(a, x1)
    requires AddNext(x1) && Ws(AfterOp(x1)) == t1 && ParseAddend(t1) == Ok(b, x2)
    requires AddNext(x2) && Ws(AfterOp(x2)) == t2 && ParseAddend(t2) == Ok(c, z)
    requires !AddNext(z)
    ensures ParseEqualend(s) == Ok(MathOp(AddOpNext(x2), MathOp(AddOpNext(x1), a, b), c), z)
  {
    EqualendLeftAssoc(s, a, x1, b, x2, c, z);
  }

  /** An equalend followed by no comparison is the whole term. */
  lemma EqualendIsTerm(s0: string, s: string, e: Term, z: string)
    requires Ws(s0) == s && ParseEqualend(s) == Ok(e, z)
    requires !StartsWith(z, "==") && !StartsWith(z, "!=")
    ensures ParseTerm(s0) == Ok(e, z)
  {
    TermWithoutComparison(s0, e, z);
  }

  /** Two equalends joined by `==` are the whole term. */
  lemma ComparisonOfTwo(s0: string, s: string, l: Term, y: string, t: string, r: Term, z: string)
    requires Ws(s0) == s && ParseEqualend(s) == Ok(l, y)
    requires StartsWith(y, "==") && Ws(y[2..]) == t && ParseEqualend(t) == Ok(r, z)
    ensures ParseTerm(s0) == Ok(Equals(l, r), z)
  {
    ComparisonDoesNotChain(s0, l, y, r, z);
  }

  /** A multiplicand followed by no operator is a whole term. */
  lemma MultiplicandIsTerm(s0: string, s: string, m: Term, y: string)
    requires Ws(s0) == s && ParseMultiplicand(s) == Ok(m, y)
    requires Ws(y) == y && !MulNext(y) && !AddNext(y)
    requires !StartsWith(y, "==") && !StartsWith(y, "!=")
    ensures ParseTerm(s0) == Ok(m, y)
  {
    AddendOfMultiplicand(s, m, y);
    WsIdem(s0);
    EqualendOfAddend(s, m, y);
    TermWithoutComparison(s0, m, y);
  }

  /** A terminal, not `if`, followed by a keyword of the conditional is a
      whole term. */
  lemma TerminalIsTerm(s0: string, s: string, t: Term, r: string, y: string)
    requires Ws(s0) == s && !StartsWith(s, "if") && ParseTerminal(s) == Ok(t, r)
    requires Ws(r) == y && ParseTerminal(y).Fail? && !MulNext(y) && !AddNext(y)
    requires !StartsWith(y, "==") && !StartsWith(y, "!=")
    ensures ParseTerm(s0) == Ok(t, y)
  {
    TerminalMultiplicand(s, t, r);
    MultiplicandIsTerm(s0, s, t, y);
  }

  // ---------------------------------------------------------------------
  // Windows: a number or a variable together with the operator after it

  /** The operator `+` or `-` as a character. */
  function AddOpOf(c: char): BinMathOp {
    if c == '+' then Add else Minus
  }

  /** The operator `*` or `/` as a character. */
  function MulOpOf(c: char): BinMathOp {
    if c == '*' then Multiply else Divide
  }

  /** `d + t` or `d - t`: the digit is a whole multiplicand and a whole
      addend, and a round of `+`/`-` follows. */
  lemma DigitThenAdd(s: string, d: char, u: string, c: char, t: string)
    requires IsDigit(d) && s == [d, ' '] + u
    requires (c == '+' || c == '-') && u == [c, ' '] + t && (t == [] || !IsWs(t[0]))
    ensures Ws(s) == s && ParseMultiplicand(s) == Ok(NumConst(DigitValue(d)), u)
    ensures ParseAddend(s) == Ok(NumConst(DigitValue(d)), u)
    ensures Ws(u) == u && !MulNext(u) && AddNext(u) && AddOpNext(u) == AddOpOf(c)
    ensures Ws(AfterOp(u)) == t
  {
    AddOperator(u, c, t);
    DigitMultiplicand(s, d, u);
    DigitAddend(s, d, u);
  }

  /** `d * t` or `d / t`: the digit is a whole multiplicand, and a round of
      `*`/`/` follows. */
  lemma DigitThenMul(s: string, d: char, u: string, c: char, t: string)
    requires IsDigit(d) && s == [d, ' '] + u
    requires (c == '*' || c == '/') && u == [c, ' '] + t && (t == [] || !IsWs(t[0]))
    ensures Ws(s) == s && ParseMultiplicand(s) == Ok(NumConst(DigitValue(d)), u)
    ensures MulNext(u) && MulOpNext(u) == MulOpOf(c) && Ws(AfterOp(u)) == t
  {
    MulOperator(u, c, t);
    DigitMultiplicand(s, d, u);
  }

  /** `d == t`: the digit is a whole addend, and a comparison follows. */
  lemma DigitThenEquals(s: string, d: char, u: string, t: string)
    requires IsDigit(d) && s == [d, ' '] + u
    requires u == ['=', '=', ' '] + t && (t == [] || !IsWs(t[0]))
    ensures Ws(s) == s && ParseAddend(s) == Ok(NumConst(DigitValue(d)), u)
    ensures !AddNext(u) && StartsWith(u, "==") && Ws(u[2..]) == t
  {
    EqualsOperator(u, t);
    DigitAddend(s, d, u);
  }

  /** A digit before a keyword of the conditional is a whole addend, and
      neither a round of `+`/`-` nor a comparison follows. */
  lemma DigitThenKeyword(s: string, d: char, y: string, i: nat, rest: string)
    requires IsDigit(d) && s == [d, ' '] + y
    requires 1 <= i < 4 && y == Reserved[i] + rest
    ensures Ws(s) == s && ParseAddend(s) == Ok(NumConst(DigitValue(d)), y)
    ensures !AddNext(y) && !StartsWith(y, "==") && !StartsWith(y, "!=")
  {
    KeywordAhead(y, i, rest);
    DigitAddend(s, d, y);
  }

  /** A variable and a blank before `t`: a terminal, whose rest skips to
      `t`. */
  lemma VariableThen(s: string, x: string, r: string, t: string)
    requires s == x + r && IsIdentifier(x)
    requires x[0] != 'i' && x[0] != 't' && x[0] != 'e' && x[0] != 'f'
    requires r == [' '] + t && (t == [] || !IsWs(t[0]))
    ensures Ws(s) == s && !StartsWith(s, "if")
    ensures ParseTerminal(s) == Ok(Var(x), r) && Ws(r) == t
  {
    VariableTerminal(s, x, r);
    BlankThen(t);
  }

  /** A variable, a blank and `+ t` or `- t`: the variable is a whole
      addend, and a round of `+`/`-` follows. */
  lemma VariableThenAdd(s: string, x: string, r: string, u: string, c: char, t: string)
    requires s == x + r && IsIdentifier(x)
    requires x[0] != 'i' && x[0] != 't' && x[0] != 'e' && x[0] != 'f'
    requires r == [' '] + u && (c == '+' || c == '-') && u == [c, ' '] + t
    requires t == [] || !IsWs(t[0])
    ensures Ws(s) == s && ParseAddend(s) == Ok(Var(x), u)
    ensures AddNext(u) && AddOpNext(u) == AddOpOf(c) && Ws(AfterOp(u)) == t
  {
    VariableTerminal(s, x, r);
    BlankThen(u);
    AddOperator(u, c, t);
    TerminalAddend(s, Var(x), r);
  }

  /** A blank and `+ t` or `- t`, after the last terminal of an
      application: no further terminal, and a round of `+`/`-`. */
  lemma BlankThenAdd(r: string, u: string, c: char, t: string)
    requires r == [' '] + u && (c == '+' || c == '-') && u == [c, ' '] + t
    requires t == [] || !IsWs(t[0])
    ensures Ws(r) == u && Ws(u) == u && ParseTerminal(u).Fail? && !MulNext(u)
    ensures AddNext(u) && AddOpNext(u) == AddOpOf(c) && Ws(AfterOp(u)) == t
  {
    AddOperator(u, c, t);
    BlankThen(u);
  }

  /** `d + e` or `d - e`, with a one-digit `e` ending the input: both
      digits are addends, joined by the operator. */
  lemma DigitOpDigit(s: string, d: char, u: string, c: char, t: string, e: char)
    requires IsDigit(d) && s == [d, ' '] + u && (c == '+' || c == '-') && u == [c, ' '] + t
    requires IsDigit(e) && (t == [e] || t == [e, ' ', ' '])
    ensures Ws(s) == s && ParseMultiplicand(s) == Ok(NumConst(DigitValue(d)), u)
    ensures ParseAddend(s) == Ok(NumConst(DigitValue(d)), u)
    ensures Ws(u) == u && !MulNext(u) && AddNext(u) && AddOpNext(u) == AddOpOf(c)
    ensures Ws(AfterOp(u)) == t && ParseAddend(t) == Ok(NumConst(DigitValue(e)), [])
  {
    DigitThenAdd(s, d, u, c, t);
    DigitLast(t, e);
  }

  /** `\\` and a blank before `s2`, which starts with no blank: the
      parameter starts at `s2`. */
  lemma LambdaBackslash(s: string, r1: string, s2: string)
    requires s == ['\\'] + r1 && r1 == [' '] + s2 && s2 != [] && !IsWs(s2[0])
    ensures StartsWith(Ws(s), "\\") && s2 == Ws(Ws(s)[1..])
  {
    assert Ws(s) == s && s[1..] == r1;
    BlankThen(s2);
  }

  /** The parameter `x`, before a blank. */
  lemma LambdaParameter(s2: string, y: string)
    requires s2 == ['x'] + y && y != [] && y[0] == ' '
    ensures ParseVariable(s2) == Ok(Var("x"), y)
  {
    VariableTerminal(s2, "x", y);
  }

  /** The blank and `. ` between the parameter and the body. */
  lemma LambdaDot(y: string, u: string, t: string)
    requires y == [' '] + u && u == ['.', ' '] + t && (t == [] || !IsWs(t[0]))
    ensures StartsWith(Ws(y), ".") && t == Ws(Ws(y)[1..])
  {
    BlankThen(u);
    OperatorThen(u, '.', t);
  }

  // ---------------------------------------------------------------------
  // Composition of the tests

  /** Two addends joined by `+` or `-`, and then the end of the input, are
      the whole term. */
  lemma TermOfTwo(s: string, a: Term, x: string, t: string, b: Term)
    requires Ws(s) == s && ParseAddend(s) == Ok(a, x)
    requires AddNext(x) && Ws(AfterOp(x)) == t && ParseAddend(t) == Ok(b, [])
    ensures ParseTerm(s) == Ok(MathOp(AddOpNext(x), a, b), [])
  {
    SumOfTwo(s, a, x, t, b, []);
    EqualendIsTerm(s, s, MathOp(AddOpNext(x), a, b), []);
  }

  /** Three addends joined by `+` or `-`, and then the end of the input,
      are the whole term. */
  lemma TermOfThree(s0: string, s: string, a: Term, x1: string, t1: string, b: Term, x2: string, t2: string, c: Term)
    requires Ws(s0) == s && Ws(s) == s && ParseAddend(s) == Ok(a, x1)
    requires AddNext(x1) && Ws(AfterOp(x1)) == t1 && ParseAddend(t1) == Ok(b, x2)
    requires AddNext(x2) && Ws(AfterOp(x2)) == t2 && ParseAddend(t2) == Ok(c, [])
    ensures ParseTerm(s0) == Ok(MathOp(AddOpNext(x2), MathOp(AddOpNext(x1), a, b), c), [])
  {
    SumOfThree(s, a, x1, t1, b, x2, t2, c, []);
    EqualendIsTerm(s0, s, MathOp(AddOpNext(x2), MathOp(AddOpNext(x1), a, b), c), []);
  }

  /** An addend, `+` or `-`, a product of two multiplicands, `+` or `-` and
      a last addend: the product is the middle operand of the sum. */
  lemma TermOfProductInSum(s: string, a: Term, x1: string, t1: string, b: Term, x2: string, t2: string,
                           c: Term, x3: string, t3: string, d: Term)
    requires Ws(s) == s && ParseAddend(s) == Ok(a, x1)
    requires AddNext(x1) && Ws(AfterOp(x1)) == t1
    requires Ws(t1) == t1 && ParseMultiplicand(t1) == Ok(b, x2)
    requires MulNext(x2) && Ws(AfterOp(x2)) == t2 && ParseMultiplicand(t2) == Ok(c, x3)
    requires !MulNext(x3) && Ws(x3) == x3
    requires AddNext(x3) && Ws(AfterOp(x3)) == t3 && ParseAddend(t3) == Ok(d, [])
    ensures ParseTerm(s) == Ok(MathOp(AddOpNext(x3), MathOp(AddOpNext(x1), a, MathOp(MulOpNext(x2), b, c)), d), [])
  {
    ProductOfTwo(t1, b, x2, t2, c, x3);
    TermOfThree(s, s, a, x1, t1, MathOp(MulOpNext(x2), b, c), x3, t3, d);
  }

  /** Two addends joined by `==`, with no `+`/`-` after either: the
      comparison of the two. */
  lemma ComparisonOfAddends(s0: string, s: string, l: Term, y: string, t: string, r: Term, z: string)
    requires Ws(s0) == s && Ws(s) == s && ParseAddend(s) == Ok(l, y) && !AddNext(y)
    requires StartsWith(y, "==") && Ws(y[2..]) == t
    requires Ws(t) == t && ParseAddend(t) == Ok(r, z) && !AddNext(z)
    ensures ParseTerm(s0) == Ok(Equals(l, r), z)
  {
    EqualendOfAddend(s, l, y);
    EqualendOfAddend(t, r, z);
    ComparisonOfTwo(s0, s, l, y, t, r, z);
  }

  /** Two sums of two addends each, joined by `==`, and then the end of
      the input: the comparison of the two sums. */
  lemma ComparisonOfTwoSums(s: string, a: Term, x1: string, t1: string, b: Term, y: string,
                            t2: string, c: Term, x3: string, t3: string, d: Term)
    requires Ws(s) == s && ParseAddend(s) == Ok(a, x1)
    requires AddNext(x1) && Ws(AfterOp(x1)) == t1 && ParseAddend(t1) == Ok(b, y)
    requires !AddNext(y) && StartsWith(y, "==") && Ws(y[2..]) == t2
    requires Ws(t2) == t2 && ParseAddend(t2) == Ok(c, x3)
    requires AddNext(x3) && Ws(AfterOp(x3)) == t3 && ParseAddend(t3) == Ok(d, [])
    ensures ParseTerm(s) == Ok(Equals(MathOp(AddOpNext(x1), a, b), MathOp(AddOpNext(x3), c, d)), [])
  {
    SumOfTwo(s, a, x1, t1, b, y);
    SumOfTwo(t2, c, x3, t3, d, []);
    ComparisonOfTwo(s, s, MathOp(AddOpNext(x1), a, b), y, t2, MathOp(AddOpNext(x3), c, d), []);
  }

  /** A conditional followed by two blanks is the whole term. */
  lemma ConditionalIsTerm(s: string, m: Term, y: string)
    requires StartsWith(s, "if") && ParseMultiplicand(s) == Ok(m, y)
    requires y == [' ', ' ']
    ensures ParseTerm(s) == Ok(m, [])
  {
    ConditionalBlanks(s, y);
    MultiplicandAtEnd(s, m, y);
  }

  /** An input starting with `if` starts with no blank, and two blanks
      are all blank. */
  lemma ConditionalBlanks(s: string, y: string)
    requires StartsWith(s, "if") && y == [' ', ' ']
    ensures Ws(s) == s && Ws(y) == []
  {
    assert s[..2][0] == s[0];
    assert y[1..] == [' '];
  }

  /** A multiplicand followed only by blanks is the whole term. */
  lemma MultiplicandAtEnd(s: string, m: Term, y: string)
    requires Ws(s) == s && ParseMultiplicand(s) == Ok(m, y) && Ws(y) == []
    ensures ParseTerm(s) == Ok(m, [])
  {
    AddendOfMultiplicand(s, m, y);
    EqualendOfAddend(s, m, []);
    TermWithoutComparison(s, m, []);
  }

  /** `if`, a test, `then`, a branch, `else`, a branch, `endif` and two
      blanks: the conditional is the whole term. */
  lemma TermOfConditional(s: string, a1: string, c: Term, y1: string, tb: Term, y2: string, eb: Term, y3: string)
    requires StartsWith(s, "if") && s[2..] == a1 && ParseTerm(a1) == Ok(c, y1)
    requires StartsWith(y1, "then") && ParseTerm(y1[4..]) == Ok(tb, y2)
    requires StartsWith(y2, "else") && ParseTerm(y2[4..]) == Ok(eb, y3)
    requires StartsWith(y3, "endif") && y3[5..] == [' ', ' ']
    ensures ParseTerm(s) == Ok(IfStmt(c, tb, eb), [])
  {
    IfShape(s, c, y1, tb, y2, eb, y3);
    ConditionalIsTerm(s, IfStmt(c, tb, eb), y3[5..]);
  }

  /** An application of three terminals, `+` or `-` and a last addend: the
      application is the first operand of the sum. */
  lemma TermOfApplicationSum(s: string, a: Term, r1: string, t1: string, b: Term, r2: string,
                             t2: string, c: Term, r3: string, u: string, t: string, d: Term)
    requires Ws(s) == s && !StartsWith(s, "if") && ParseTerminal(s) == Ok(a, r1)
    requires Ws(r1) == t1 && ParseTerminal(t1) == Ok(b, r2)
    requires Ws(r2) == t2 && ParseTerminal(t2) == Ok(c, r3)
    requires Ws(r3) == u && Ws(u) == u && ParseTerminal(u).Fail? && !MulNext(u)
    requires AddNext(u) && Ws(AfterOp(u)) == t && ParseAddend(t) == Ok(d, [])
    ensures ParseTerm(s) == Ok(MathOp(AddOpNext(u), Apply(c, Apply(b, a)), d), [])
  {
    WsIdem(r1);
    WsIdem(r2);
    ApplicationLeftFold(s, a, r1, b, r2, c, r3);
    MultiplicandOfApplication(s);
    AddendOfMultiplicand(s, Apply(c, Apply(b, a)), u);
    TermOfTwo(s, Apply(c, Apply(b, a)), u, t, d);
  }

  // ---------------------------------------------------------------------
  // The tests, over the suffixes of their input

  /** ` 1 + 2 - 3  `: `+` and `-` group to the left. */
  lemma SumThenDifference(s0: string, s: string, u1: string, t1: string, u2: string, t2: string)
    requires s0 == [' '] + s && s == ['1', ' '] + u1 && u1 == ['+', ' '] + t1
    requires t1 == ['2', ' '] + u2 && u2 == ['-', ' '] + t2 && t2 == ['3', ' ', ' ']
    ensures ParseTerm(s0) == Ok(MathOp(Minus, MathOp(Add, NumConst(1), NumConst(2)), NumConst(3)), [])
  {
    BlankThen(s);
    DigitThenAdd(s, '1', u1, '+', t1);
    DigitOpDigit(t1, '2', u2, '-', t2, '3');
    TermOfThree(s0, s, NumConst(1), u1, t1, NumConst(2), u2, t2, NumConst(3));
  }

  /** `1 + 2 * `: the first addend, and the product's first multiplicand. */
  lemma ProductInSumHead(s: string, u1: string, t1: string, u2: string, t2: string)
    requires s == ['1', ' '] + u1 && u1 == ['+', ' '] + t1
    requires t1 == ['2', ' '] + u2 && u2 == ['*', ' '] + t2 && t2 != [] && !IsWs(t2[0])
    ensures Ws(s) == s && ParseAddend(s) == Ok(NumConst(1), u1)
    ensures AddNext(u1) && AddOpNext(u1) == Add && Ws(AfterOp(u1)) == t1
    ensures Ws(t1) == t1 && ParseMultiplicand(t1) == Ok(NumConst(2), u2)
    ensures MulNext(u2) && MulOpNext(u2) == Multiply && Ws(AfterOp(u2)) == t2
  {
    DigitThenAdd(s, '1', u1, '+', t1);
    DigitThenMul(t1, '2', u2, '*', t2);
  }

  /** `1 + 2 * 3 - 4  `: the product is one operand of the sum. */
  lemma ProductInSum(s: string, u1: string, t1: string, u2: string, t2: string, u3: string, t3: string)
    requires s == ['1', ' '] + u1 && u1 == ['+', ' '] + t1
    requires t1 == ['2', ' '] + u2 && u2 == ['*', ' '] + t2
    requires t2 == ['3', ' '] + u3 && u3 == ['-', ' '] + t3 && t3 == ['4', ' ', ' ']
    ensures ParseTerm(s) == Ok(MathOp(Minus, MathOp(Add, NumConst(1), MathOp(Multiply, NumConst(2), NumConst(3))), NumConst(4)), [])
  {
    ProductInSumHead(s, u1, t1, u2, t2);
    DigitOpDigit(t2, '3', u3, '-', t3, '4');
    TermOfProductInSum(s, NumConst(1), u1, t1, NumConst(2), u2, t2, NumConst(3), u3, t3, NumConst(4));
  }

  /** `1 + 2 == `: the sum before the comparison. */
  lemma ComparisonLeft(s: string, u1: string, t1: string, u2: string, t2: string)
    requires s == ['1', ' '] + u1 && u1 == ['+', ' '] + t1
    requires t1 == ['2', ' '] + u2 && u2 == ['=', '=', ' '] + t2 && t2 != [] && !IsWs(t2[0])
    ensures Ws(s) == s && ParseAddend(s) == Ok(NumConst(1), u1)
    ensures AddNext(u1) && AddOpNext(u1) == Add && Ws(AfterOp(u1)) == t1
    ensures ParseAddend(t1) == Ok(NumConst(2), u2)
    ensures !AddNext(u2) && StartsWith(u2, "==") && Ws(u2[2..]) == t2
  {
    DigitThenAdd(s, '1', u1, '+', t1);
    DigitThenEquals(t1, '2', u2, t2);
  }

  /** `1 + 2 == 3 - 4  `: the comparison binds loosest. */
  lemma ComparisonOfSums(s: string, u1: string, t1: string, u2: string, t2: string, u3: string, t3: string)
    requires s == ['1', ' '] + u1 && u1 == ['+', ' '] + t1
    requires t1 == ['2', ' '] + u2 && u2 == ['=', '=', ' '] + t2
    requires t2 == ['3', ' '] + u3 && u3 == ['-', ' '] + t3 && t3 == ['4', ' ', ' ']
    ensures ParseTerm(s) == Ok(Equals(MathOp(Add, NumConst(1), NumConst(2)), MathOp(Minus, NumConst(3), NumConst(4))), [])
  {
    ComparisonLeft(s, u1, t1, u2, t2);
    DigitOpDigit(t2, '3', u3, '-', t3, '4');
    ComparisonOfTwoSums(s, NumConst(1), u1, t1, NumConst(2), u2, t2, NumConst(3), u3, t3, NumConst(4));
  }

  /** ` 1 == `: the left side of the test of the conditional. */
  lemma ConditionalTestLeft(a1: string, s1: string, u1: string, t1: string)
    requires a1 == [' '] + s1 && s1 == ['1', ' '] + u1 && u1 == ['=', '=', ' '] + t1
    requires t1 != [] && !IsWs(t1[0])
    ensures Ws(a1) == s1 && Ws(s1) == s1 && ParseAddend(s1) == Ok(NumConst(1), u1)
    ensures !AddNext(u1) && StartsWith(u1, "==") && Ws(u1[2..]) == t1
  {
    BlankThen(s1);
    DigitThenEquals(s1, '1', u1, t1);
  }

  /** `2 then`: the right side of the test of the conditional. */
  lemma ConditionalTestRight(t1: string, y1: string, rest: string)
    requires t1 == ['2', ' '] + y1 && y1 == "then" + rest
    ensures Ws(t1) == t1 && ParseAddend(t1) == Ok(NumConst(2), y1) && !AddNext(y1)
  {
    assert y1 == Reserved[1] + rest;
    DigitThenKeyword(t1, '2', y1, 1, rest);
  }

  /** ` 1 == 2 then …`: the test of the conditional ends at `then`. */
  lemma ConditionalTest(a1: string, s1: string, u1: string, t1: string, y1: string, rest: string)
    requires a1 == [' '] + s1 && s1 == ['1', ' '] + u1 && u1 == ['=', '=', ' '] + t1
    requires t1 == ['2', ' '] + y1 && y1 == "then" + rest
    ensures ParseTerm(a1) == Ok(Equals(NumConst(1), NumConst(2)), y1)
  {
    ConditionalTestLeft(a1, s1, u1, t1);
    ConditionalTestRight(t1, y1, rest);
    ComparisonOfAddends(a1, s1, NumConst(1), u1, t1, NumConst(2), y1);
  }

  /** ` false else …`: a literal before a keyword is the whole branch. */
  lemma BranchBeforeKeyword(s: string, s1: string, b: bool, y: string, i: nat, rest: string)
    requires s == [' '] + s1 && s1 == (if b then "true" else "false") + [' '] + y
    requires 1 <= i < 4 && y == Reserved[i] + rest
    ensures ParseTerm(s) == Ok(BoolConst(b), y)
  {
    KeywordAhead(y, i, rest);
    BooleanThen(s, s1, b, y);
    TerminalIsTerm(s, s1, BoolConst(b), [' '] + y, y);
  }

  /** ` false else true endif  `: the two branches. */
  lemma ConditionalBranches(b1: string, c1: string, y2: string, d1: string, e1: string, y3: string)
    requires b1 == [' '] + c1 && c1 == "false" + [' '] + y2 && y2 == "else" + d1
    requires d1 == [' '] + e1 && e1 == "true" + [' '] + y3 && y3 == "endif" + [' ', ' ']
    ensures ParseTerm(b1) == Ok(BoolConst(false), y2) && ParseTerm(d1) == Ok(BoolConst(true), y3)
    ensures StartsWith(y2, "else") && y2[4..] == d1
    ensures StartsWith(y3, "endif") && y3[5..] == [' ', ' ']
  {
    assert y2 == Reserved[2] + d1 && y3 == Reserved[3] + [' ', ' '];
    BranchBeforeKeyword(b1, c1, false, y2, 2, d1);
    BranchBeforeKeyword(d1, e1, true, y3, 3, [' ', ' ']);
  }

  /** `if 1 == 2 then false else true endif  `: the conditional of three
      terms, each ending at the next keyword. */
  lemma ConditionalOfTerms(s: string, a1: string, s1: string, u1: string, t1: string, y1: string,
                           b1: string, c1: string, y2: string, d1: string, e1: string, y3: string)
    requires s == "if" + a1 && a1 == [' '] + s1 && s1 == ['1', ' '] + u1 && u1 == ['=', '=', ' '] + t1
    requires t1 == ['2', ' '] + y1 && y1 == "then" + b1
    requires b1 == [' '] + c1 && c1 == "false" + [' '] + y2 && y2 == "else" + d1
    requires d1 == [' '] + e1 && e1 == "true" + [' '] + y3 && y3 == "endif" + [' ', ' ']
    ensures ParseTerm(s) == Ok(IfStmt(Equals(NumConst(1), NumConst(2)), BoolConst(false), BoolConst(true)), [])
  {
    ConditionalTest(a1, s1, u1, t1, y1, b1);
    ConditionalBranches(b1, c1, y2, d1, e1, y3);
    assert StartsWith(s, "if") && s[2..] == a1 && StartsWith(y1, "then") && y1[4..] == b1;
    TermOfConditional(s, a1, Equals(NumConst(1), NumConst(2)), y1, BoolConst(false), y2, BoolConst(true), y3);
  }

  /** `a b `: the first two terminals of the application. */
  lemma ApplicationHead(s: string, r1: string, t1: string, r2: string, t2: string)
    requires s == ['a'] + r1 && r1 == [' '] + t1 && t1 == ['b'] + r2 && r2 == [' '] + t2
    requires t2 != [] && !IsWs(t2[0])
    ensures Ws(s) == s && !StartsWith(s, "if") && ParseTerminal(s) == Ok(Var("a"), r1)
    ensures Ws(r1) == t1 && ParseTerminal(t1) == Ok(Var("b"), r2) && Ws(r2) == t2
  {
    VariableThen(s, "a", r1, t1);
    VariableThen(t1, "b", r2, t2);
  }

  /** `c + 5`: the last terminal of the application, and the sum's last
      operand. */
  lemma ApplicationTail(t2: string, r3: string, u3: string, t3: string)
    requires t2 == ['c'] + r3 && r3 == [' '] + u3 && u3 == ['+', ' '] + t3 && t3 == ['5']
    ensures ParseTerminal(t2) == Ok(Var("c"), r3)
    ensures Ws(r3) == u3 && Ws(u3) == u3 && ParseTerminal(u3).Fail? && !MulNext(u3)
    ensures AddNext(u3) && AddOpNext(u3) == Add && Ws(AfterOp(u3)) == t3
    ensures ParseAddend(t3) == Ok(NumConst(5), [])
  {
    VariableThen(t2, "c", r3, u3);
    BlankThenAdd(r3, u3, '+', t3);
    DigitLast(t3, '5');
  }

  /** `a b c + 5`: the application is one operand of the sum. */
  lemma ApplicationInSum(s: string, r1: string, t1: string, r2: string, t2: string, r3: string, u3: string, t3: string)
    requires s == ['a'] + r1 && r1 == [' '] + t1 && t1 == ['b'] + r2 && r2 == [' '] + t2
    requires t2 == ['c'] + r3 && r3 == [' '] + u3 && u3 == ['+', ' '] + t3 && t3 == ['5']
    ensures ParseTerm(s) == Ok(MathOp(Add, Apply(Var("c"), Apply(Var("b"), Var("a"))), NumConst(5)), [])
  {
    ApplicationHead(s, r1, t1, r2, t2);
    ApplicationTail(t2, r3, u3, t3);
    TermOfApplicationSum(s, Var("a"), r1, t1, Var("b"), r2, t2, Var("c"), r3, u3, t3, NumConst(5));
  }

  /** `_a := t`: the variable, and the term after `:=` starts at `t`. */
  lemma AssignmentHead(s: string, r1: string, u1: string, t1: string)
    requires s == "_a" + r1 && r1 == [' '] + u1 && u1 == [':', '=', ' '] + t1
    requires t1 == [] || !IsWs(t1[0])
    ensures ParseVariable(Ws(s)) == Ok(Var("_a"), r1)
    ensures StartsWith(Ws(r1), ":=") && t1 == Ws(Ws(r1)[2..])
  {
    VariableTerminal(s, "_a", r1);
    BlankThen(u1);
    assert u1[2..] == [' '] + t1;
    BlankThen(t1);
  }

  /** `_a := 1 + 1`: the assignment of a sum. */
  lemma AssignmentOfSum(s: string, r1: string, u1: string, t1: string, u2: string, t2: string)
    requires s == "_a" + r1 && r1 == [' '] + u1 && u1 == [':', '=', ' '] + t1
    requires t1 == ['1', ' '] + u2 && u2 == ['+', ' '] + t2 && t2 == ['1']
    ensures ParseAssignment(s) == Ok(Assignm("_a", MathOp(Add, NumConst(1), NumConst(1))), [])
  {
    AssignmentHead(s, r1, u1, t1);
    DigitOpDigit(t1, '1', u2, '+', t2, '1');
    TermOfTwo(t1, NumConst(1), u2, t2, NumConst(1));
    AssignmentShape(s, "_a", r1, t1, MathOp(Add, NumConst(1), NumConst(1)), []);
  }

  /** `\\ x . x + 1`: the lambda whose body is a sum. */
  lemma LambdaOfSum(s: string, r1: string, s2: string, y: string, u: string, y2: string, r2: string, u2: string, t2: string)
    requires s == ['\\'] + r1 && r1 == [' '] + s2 && s2 == ['x'] + y && y == [' '] + u
    requires u == ['.', ' '] + y2 && y2 == ['x'] + r2 && r2 == [' '] + u2
    requires u2 == ['+', ' '] + t2 && t2 == ['1']
    ensures ParseLambda(s) == Ok(Lambda("x", MathOp(Add, Var("x"), NumConst(1))), [])
  {
    LambdaBackslash(s, r1, s2);
    LambdaParameter(s2, y);
    LambdaDot(y, u, y2);
    SumOfLambdaBody(y2, r2, u2, t2);
    assert Ws([]) == [];
    LambdaShape(s, s2, "x", y, y2, MathOp(Add, Var("x"), NumConst(1)), []);
  }

  /** `x + 1`: the body of the lambda. */
  lemma SumOfLambdaBody(y2: string, r2: string, u2: string, t2: string)
    requires y2 == ['x'] + r2 && r2 == [' '] + u2 && u2 == ['+', ' '] + t2 && t2 == ['1']
    ensures ParseTerm(y2) == Ok(MathOp(Add, Var("x"), NumConst(1)), [])
  {
    VariableThenAdd(y2, "x", r2, u2, '+', t2);
    DigitLast(t2, '1');
    TermOfTwo(y2, Var("x"), u2, t2, NumConst(1));
  }

  // ---------------------------------------------------------------------
  // The input of the conditional's test, cut where its suffix lemma reads it

  lemma ConditionalInputIf()
    ensures "if 1 == 2 then false else true endif  " == "if 1 == " + "2 then false else true endif  "
  {
  }

  lemma ConditionalInputTest(t1: string)
    ensures "if 1 == " + t1 == "if" + ([' '] + (['1', ' '] + (['=', '=', ' '] + t1)))
  {
  }

  lemma ConditionalInputTwo()
    ensures "2 then false else true endif  " == ['2', ' '] + "then false else true endif  "
  {
  }

  lemma ConditionalInputThen()
    ensures "then false else true endif  " == "then" + ([' '] + ("false" + [' '] + "else true endif  "))
  {
  }

  lemma ConditionalInputElse()
    ensures "else true endif  " == "else" + ([' '] + ("true" + [' '] + "endif  "))
  {
  }

  // ---------------------------------------------------------------------
  // The tests

  lemma TermUnitTestSum()
    ensures ParseTerm(" 1 + 2 - 3  ")
      == Ok(MathOp(Minus, MathOp(Add, NumConst(1), NumConst(2)), NumConst(3)), "")
  {
    SumThenDifference(" 1 + 2 - 3  ", "1 + 2 - 3  ", "+ 2 - 3  ", "2 - 3  ", "- 3  ", "3  ");
  }

  lemma TermUnitTestProduct()
    ensures ParseTerm("1 + 2 * 3 - 4  ")
      == Ok(MathOp(Minus, MathOp(Add, NumConst(1), MathOp(Multiply, NumConst(2), NumConst(3))), NumConst(4)), "")
  {
    ProductInSum("1 + 2 * 3 - 4  ", "+ 2 * 3 - 4  ", "2 * 3 - 4  ", "* 3 - 4  ", "3 - 4  ", "- 4  ", "4  ");
  }

  lemma TermUnitTestComparison()
    ensures ParseTerm("1 + 2 == 3 - 4  ")
      == Ok(Equals(MathOp(Add, NumConst(1), NumConst(2)), MathOp(Minus, NumConst(3), NumConst(4))), "")
  {
    ComparisonOfSums("1 + 2 == 3 - 4  ", "+ 2 == 3 - 4  ", "2 == 3 - 4  ", "== 3 - 4  ", "3 - 4  ", "- 4  ", "4  ");
  }

  lemma TermUnitTestConditional()
    ensures ParseTerm("if 1 == 2 then false else true endif  ")
      == Ok(IfStmt(Equals(NumConst(1), NumConst(2)), BoolConst(false), BoolConst(true)), "")
  {
    var t1, y1, y2, y3 := "2 then false else true endif  ", "then false else true endif  ", "else true endif  ", "endif  ";
    var u1 := ['=', '=', ' '] + t1;
    var s1 := ['1', ' '] + u1;
    var c1 := "false" + [' '] + y2;
    var e1 := "true" + [' '] + y3;
    ConditionalInputIf();
    ConditionalInputTest(t1);
    ConditionalInputTwo();
    ConditionalInputThen();
    ConditionalInputElse();
    assert y3 == "endif" + [' ', ' '];
    ConditionalOfTerms("if 1 == 2 then false else true endif  ", [' '] + s1, s1, u1, t1, y1, [' '] + c1, c1, y2, [' '] + e1, e1, y3);
  }

  lemma ApplyUnitTest()
    ensures ParseTerm("a b c + 5")
      == Ok(MathOp(Add, Apply(Var("c"), Apply(Var("b"), Var("a"))), NumConst(5)), "")
  {
    ApplicationInSum("a b c + 5", " b c + 5", "b c + 5", " c + 5", "c + 5", " + 5", "+ 5", "5");
  }

  lemma AssignmentUnitTest()
    ensures ParseAssignment("_a := 1 + 1") == Ok(Assignm("_a", MathOp(Add, NumConst(1), NumConst(1))), "")
  {
    AssignmentOfSum("_a := 1 + 1", " := 1 + 1", ":= 1 + 1", "1 + 1", "+ 1", "1");
  }

  lemma LambdaUnitTest()
    ensures ParseLambda("\\ x . x + 1") == Ok(Lambda("x", MathOp(Add, Var("x"), NumConst(1))), "")
  {
    LambdaOfSum("\\ x . x + 1", " x . x + 1", "x . x + 1", " . x + 1", ". x + 1", "x + 1", " + 1", "+ 1", "1");
  }
}
