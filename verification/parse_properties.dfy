/** Properties of the parser: the tokens it accepts, and the shape of the
    trees the grammar levels build. */
module ParseProperties {
  import opened Ast
  import opened Parse

  /** Skipping a run of blanks followed by a non-blank. */
  lemma {:induction false} WsDrop(s: string, n: nat)
    requires n <= |s|
    requires forall i :: 0 <= i < n ==> IsWs(s[i])
    requires n == |s| || !IsWs(s[n])
    ensures Ws(s) == s[n..]
    decreases n
  {
    if n > 0 {
      assert s[1..][n - 1..] == s[n..];
      WsDrop(s[1..], n - 1);
    }
  }

  /** Skipping blanks twice is skipping them once. */
  lemma WsIdem(s: string)
    ensures Ws(Ws(s)) == Ws(s)
  {
  }

  /** A well-formed identifier: a start character followed by identifier
      characters. */
  predicate IsIdentifier(name: string) {
    |name| > 0 && IsIdentStart(name[0]) && forall c :: c in name ==> IsIdentChar(c)
  }

  /** Any input starting with a reserved word is refused as a variable,
      whatever follows it (so `iffy` and `endif` are refused alike). */
  lemma VariableRefusesReserved(i: nat, rest: string)
    requires i < |Reserved|
    ensures ParseVariable(Reserved[i] + rest) == Fail(Reserved[i] + rest)
  {
    assert StartsWith(Reserved[i] + rest, Reserved[i]);
  }

  /** The converse of `ParseVariable`'s contract: an identifier followed by a
      non-identifier character is read as exactly that variable. */
  lemma {:induction false} VariableReadsIdentifier(name: string, rest: string)
    requires IsIdentifier(name)
    requires rest == [] || !IsIdentChar(rest[0])
    requires !StartsWithReserved(name + rest)
    ensures ParseVariable(name + rest) == Ok(Var(name), rest)
  {
    var s := name + rest;
    assert name[0] in name;
    forall c | c in name[1..] ensures IsIdentChar(c) {
      assert c in name;
    }
    IdentRunOf(name[1..], rest);
    assert s[1..] == name[1..] + rest;
    assert s[..|name|] == name && s[|name|..] == rest;
  }

  lemma {:induction false} IdentRunOf(cs: string, rest: string)
    requires forall c :: c in cs ==> IsIdentChar(c)
    requires rest == [] || !IsIdentChar(rest[0])
    ensures IdentRun(cs + rest) == |cs|
    decreases |cs|
  {
    if cs != [] {
      assert cs[0] in cs;
      assert (cs + rest)[1..] == cs[1..] + rest;
      forall c | c in cs[1..] ensures IsIdentChar(c) {
        assert c in cs;
      }
      IdentRunOf(cs[1..], rest);
    }
  }

  lemma {:induction false} DigitRunOf(ds: string, rest: string)
    requires forall i :: 0 <= i < |ds| ==> IsDigit(ds[i])
    requires rest == [] || !IsDigit(rest[0])
    ensures DigitRun(ds + rest) == |ds|
    decreases |ds|
  {
    if ds != [] {
      assert (ds + rest)[1..] == ds[1..] + rest;
      assert forall i :: 0 <= i < |ds[1..]| ==> ds[1..][i] == ds[i + 1];
      DigitRunOf(ds[1..], rest);
    }
  }

  /** The converse of `ParseNumber`'s contract: a run of digits whose value
      fits in 64 bits, followed by a non-digit, is read as that number. */
  lemma NumberReadsDigits(ds: string, rest: string)
    requires ds != []
    requires forall i :: 0 <= i < |ds| ==> IsDigit(ds[i])
    requires rest == [] || !IsDigit(rest[0])
    requires DecimalValue(ds) < U64_LIMIT
    ensures ParseNumber(ds + rest) == Ok(NumConst(DecimalValue(ds)), rest)
    ensures ParseTerminal(ds + rest) == Ok(NumConst(DecimalValue(ds)), rest)
  {
    DigitsThenRest(ds, rest);
    TerminalOfNumber(ds + rest);
  }

  /** The digit run of `ds + rest` is exactly `ds`. */
  lemma DigitsThenRest(ds: string, rest: string)
    requires forall i :: 0 <= i < |ds| ==> IsDigit(ds[i])
    requires rest == [] || !IsDigit(rest[0])
    ensures DigitRun(ds + rest) == |ds|
    ensures (ds + rest)[..|ds|] == ds && (ds + rest)[|ds|..] == rest
  {
    DigitRunOf(ds, rest);
    assert (ds + rest)[..|ds|] == ds && (ds + rest)[|ds|..] == rest;
  }

  /** A number whose value does not fit in 64 bits is refused. */
  lemma NumberRefusesOverflow(ds: string, rest: string)
    requires ds != []
    requires forall i :: 0 <= i < |ds| ==> IsDigit(ds[i])
    requires rest == [] || !IsDigit(rest[0])
    requires DecimalValue(ds) >= U64_LIMIT
    ensures ParseNumber(ds + rest) == Fail(ds + rest)
  {
    DigitRunOf(ds, rest);
    assert (ds + rest)[..|ds|] == ds;
  }

  /** Input that starts with neither an identifier character nor `(`
      (an operator, a closing parenthesis, the end) holds no terminal. */
  lemma TerminalRefuses(s: string)
    requires s == [] || (!IsIdentChar(s[0]) && s[0] != '(')
    ensures ParseTerminal(s).Fail?
  {
    if s != [] {
      assert !StartsWith(s, "true") && !StartsWith(s, "false") by {
        assert "true"[0] == 't' && "false"[0] == 'f';
      }
    }
  }

  /** The converse of `TerminalRefuses`: a terminal starts with an
      identifier character or `(`, so never with a blank. */
  lemma TerminalStart(s: string)
    requires ParseTerminal(s).Ok?
    ensures s != [] && (IsIdentChar(s[0]) || s[0] == '(')
    ensures Ws(s) == s
  {
    if ParseVariable(s).Fail? && ParseNumber(s).Fail? {
      if ParseBoolean(s).Ok? {
        if StartsWith(s, "true") { assert s[0] == s[..4][0]; }
        else { assert s[0] == s[..5][0]; }
      }
    }
    assert !IsWs(s[0]);
  }

  /** The keywords `if`, `then`, `else` and `endif` start no terminal,
      whatever follows them: this is where an operand before a keyword ends. */
  lemma TerminalRefusesKeyword(i: nat, rest: string)
    requires i < 4
    ensures ParseTerminal(Reserved[i] + rest).Fail?
  {
    var s := Reserved[i] + rest;
    VariableRefusesReserved(i, rest);
    assert s[0] == Reserved[i][0] && s[1] == Reserved[i][1];
    assert s[0] in "ite" && s[1] in "fhln" by {
      assert i == 0 || i == 1 || i == 2 || i == 3;
    }
    assert !StartsWith(s, "true") by { if |s| >= 4 { assert s[..4][1] == s[1]; } }
    assert !StartsWith(s, "false") by { if |s| >= 5 { assert s[..5][0] == s[0]; } }
  }

  /** A variable is a terminal: `variable` is the first alternative tried. */
  lemma TerminalOfVariable(s: string)
    requires ParseVariable(s).Ok?
    ensures ParseTerminal(s) == ParseVariable(s)
  {
  }

  /** A number is a terminal: input starting with a digit is no variable. */
  lemma TerminalOfNumber(s: string)
    requires ParseNumber(s).Ok?
    ensures ParseTerminal(s) == ParseNumber(s)
  {
  }

  /** Input starting with `(` is a terminal only as a parenthesised form. */
  lemma TerminalOfParenthesized(s: string)
    requires s != [] && s[0] == '('
    ensures ParseTerminal(s) == ParseParenthesized(s)
  {
    assert ParseVariable(s).Fail? by { assert !IsIdentStart(s[0]); }
    assert ParseNumber(s).Fail? by { assert !IsDigit(s[0]); }
    assert ParseBoolean(s).Fail? by {
      if |s| >= 4 { assert s[..4][0] == s[0]; }
      if |s| >= 5 { assert s[..5][0] == s[0]; }
    }
  }

  /** What a parenthesised form gives: the lambda, or failing that the term,
      after the `(`, with the `)` that must follow it consumed. */
  lemma ParenthesizedResult(s: string)
    requires ParseParenthesized(s).Ok?
    ensures s != [] && s[0] == '('
    ensures var inner := if ParseLambda(s[1..]).Ok? then ParseLambda(s[1..]) else ParseTerm(s[1..]);
      inner.Ok? && inner.t == ParseParenthesized(s).t && inner.rest == [')'] + ParseParenthesized(s).rest
  {
    ParenthesizedUnfold(s);
    var inner := if ParseLambda(s[1..]).Ok? then ParseLambda(s[1..]) else ParseTerm(s[1..]);
    ClosingParen(inner.rest);
  }

  /** One step of `ParseParenthesized`: the inner parse is followed by `)`. */
  lemma ParenthesizedUnfold(s: string)
    requires ParseParenthesized(s).Ok?
    ensures s != [] && s[0] == '('
    ensures var inner := if ParseLambda(s[1..]).Ok? then ParseLambda(s[1..]) else ParseTerm(s[1..]);
      inner.Ok? && inner.rest != [] && inner.rest[0] == ')' && ParseParenthesized(s) == Ok(inner.t, inner.rest[1..])
  {
  }

  /** A rest starting with `)` is that `)` and what follows it. */
  lemma ClosingParen(x: string)
    requires x != [] && x[0] == ')'
    ensures x == [')'] + x[1..]
  {
  }

  /** `( \x . t )` is a terminal: the only place a lambda enters a term. */
  lemma ParenthesizedLambda(s: string, l: Term, y: string)
    requires s != [] && s[0] == '('
    requires ParseLambda(s[1..]) == Ok(l, y)
    requires y != [] && y[0] == ')'
    ensures ParseTerminal(s) == Ok(l, y[1..])
  {
    TerminalOfParenthesized(s);
  }

  /** `( t )` groups: a parenthesised term that is not a lambda is that term. */
  lemma ParenthesizedTerm(s: string, t: Term, y: string)
    requires s != [] && s[0] == '('
    requires ParseLambda(s[1..]).Fail? && ParseTerm(s[1..]) == Ok(t, y)
    requires y != [] && y[0] == ')'
    ensures ParseTerminal(s) == Ok(t, y[1..])
  {
    TerminalOfParenthesized(s);
  }

  /** The literals `true` and `false` are terminals, whatever follows them. */
  lemma BooleanTerminal(b: bool, rest: string)
    ensures ParseTerminal((if b then "true" else "false") + rest) == Ok(BoolConst(b), rest)
  {
    var w := if b then "true" else "false";
    var s := w + rest;
    VariableRefusesReserved(if b then 4 else 5, rest);
    assert s[..|w|] == w && s[|w|..] == rest;
    assert s[0] == w[0];
    if !b {
      assert !StartsWith(s, "true") by { assert s[..4][0] == s[0]; }
    }
  }

  // ---------------------------------------------------------------------
  // Shapes built by the grammar levels

  /** After blanks, `x` starts with `*` or `/`. */
  predicate MulNext(x: string) {
    Ws(x) != [] && (Ws(x)[0] == '*' || Ws(x)[0] == '/')
  }

  /** After blanks, `x` starts with `+` or `-`. */
  predicate AddNext(x: string) {
    Ws(x) != [] && (Ws(x)[0] == '+' || Ws(x)[0] == '-')
  }

  /** The operator `MulNext` finds. */
  function MulOpNext(x: string): BinMathOp {
    if Ws(x) != [] && Ws(x)[0] == '*' then Multiply else Divide
  }

  /** The operator `AddNext` finds. */
  function AddOpNext(x: string): BinMathOp {
    if Ws(x) != [] && Ws(x)[0] == '+' then Add else Minus
  }

  lemma AddNextNotMul(x: string)
    requires AddNext(x)
    ensures !MulNext(x)
  {
  }

  /** The input after the blanks and the operator character at the start of `x`. */
  function AfterOp(x: string): string {
    if Ws(x) == [] then [] else Ws(x)[1..]
  }

  /** `application` folds to the left: three terminals `a b c` give
      `Apply(c, Apply(b, a))`, the function being the accumulated term. */
  lemma ApplicationLeftFold(s: string, a: Term, s1: string, b: Term, s2: string, c: Term, s3: string)
    requires ParseTerminal(Ws(s)) == Ok(a, s1)
    requires ParseTerminal(Ws(s1)) == Ok(b, s2)
    requires ParseTerminal(Ws(s2)) == Ok(c, s3)
    requires ParseTerminal(Ws(s3)).Fail?
    ensures ParseApplication(s) == Ok(Apply(c, Apply(b, a)), Ws(s3))
  {
    WsIdem(s2);
    WsIdem(s3);
    assert ApplicationTail(Apply(c, Apply(b, a)), Ws(s3)) == (Apply(c, Apply(b, a)), Ws(s3));
    assert ApplicationTail(Apply(b, a), Ws(s2)) == (Apply(c, Apply(b, a)), Ws(s3));
    assert ApplicationTail(a, s1) == (Apply(c, Apply(b, a)), Ws(s3));
  }

  /** An application of one terminal is that terminal. */
  lemma ApplicationSingle(s: string, t: Term, rest: string)
    requires ParseTerminal(Ws(s)) == Ok(t, rest)
    requires ParseTerminal(Ws(rest)).Fail?
    ensures ParseApplication(s) == Ok(t, Ws(rest))
  {
  }

  /** Input that does not start with `if` is a multiplicand exactly when it
      is an application, so an application is a single operand of `*`, `/`,
      `+` and `-`. */
  lemma MultiplicandOfApplication(s: string)
    requires !StartsWith(s, "if")
    ensures ParseMultiplicand(s) == if ParseApplication(s).Ok? then ParseApplication(s) else Fail(s)
  {
  }

  /** A terminal that does not start with `if` and is not followed by another
      terminal is a whole multiplicand. */
  lemma TerminalMultiplicand(s: string, t: Term, rest: string)
    requires !StartsWith(s, "if")
    requires ParseTerminal(s) == Ok(t, rest)
    requires ParseTerminal(Ws(rest)).Fail?
    ensures ParseMultiplicand(s) == Ok(t, Ws(rest))
  {
    TerminalStart(s);
    ApplicationSingle(s, t, rest);
    MultiplicandOfApplication(s);
  }

  /** A repetition that does not find its operator returns what it was given. */
  lemma AddendTailStops(acc: Term, s: string)
    requires !MulNext(s)
    ensures AddendTail(acc, s) == (acc, s)
  {
  }

  lemma EqualendTailStops(acc: Term, s: string)
    requires !AddNext(s)
    ensures EqualendTail(acc, s) == (acc, s)
  {
  }

  /** One round of the `*`/`/` repetition. */
  lemma AddendTailStep(acc: Term, s: string, m: Term, y: string)
    requires MulNext(s)
    requires ParseMultiplicand(Ws(AfterOp(s))) == Ok(m, y)
    ensures AddendTail(acc, s) == AddendTail(MathOp(MulOpNext(s), acc, m), Ws(y))
  {
  }

  /** One round of the `+`/`-` repetition. */
  lemma EqualendTailStep(acc: Term, s: string, a: Term, y: string)
    requires AddNext(s)
    requires ParseAddend(Ws(AfterOp(s))) == Ok(a, y)
    ensures EqualendTail(acc, s) == EqualendTail(MathOp(AddOpNext(s), acc, a), y)
  {
  }

  /** An addend is its first multiplicand folded with the repetition. */
  lemma AddendUnfold(s: string, a: Term, y: string)
    requires ParseMultiplicand(Ws(s)) == Ok(a, y)
    ensures ParseAddend(s) == Ok(AddendTail(a, y).0, Ws(AddendTail(a, y).1))
  {
  }

  /** An equalend is its first addend folded with the repetition. */
  lemma EqualendUnfold(s: string, a: Term, y: string)
    requires ParseAddend(Ws(s)) == Ok(a, y)
    ensures ParseEqualend(s) == Ok(EqualendTail(a, y).0, Ws(EqualendTail(a, y).1))
  {
  }

  /** A multiplicand followed by neither `*` nor `/` is a whole addend. */
  lemma AddendOfMultiplicand(s: string, m: Term, y: string)
    requires !MulNext(y)
    requires ParseMultiplicand(Ws(s)) == Ok(m, y)
    ensures ParseAddend(s) == Ok(m, Ws(y))
  {
    AddendTailStops(m, y);
    AddendUnfold(s, m, y);
  }

  /** An addend followed by neither `+` nor `-` is a whole equalend. */
  lemma EqualendOfAddend(s: string, a: Term, y: string)
    requires !AddNext(y)
    requires ParseAddend(Ws(s)) == Ok(a, y)
    ensures ParseEqualend(s) == Ok(a, y)
  {
    EqualendTailStops(a, y);
    EqualendUnfold(s, a, y);
    assert Ws(y) == y;
  }

  /** `+` and `-` associate to the left: `a + b - c` is `(a + b) - c`. */
  lemma EqualendLeftAssoc(s: string, a: Term, s1: string, b: Term, s2: string, c: Term, s3: string)
    requires AddNext(s1) && AddNext(s2) && !AddNext(s3)
    requires ParseAddend(Ws(s)) == Ok(a, s1)
    requires ParseAddend(Ws(AfterOp(s1))) == Ok(b, s2)
    requires ParseAddend(Ws(AfterOp(s2))) == Ok(c, s3)
    ensures ParseEqualend(s) == Ok(MathOp(AddOpNext(s2), MathOp(AddOpNext(s1), a, b), c), s3)
  {
    var ab := MathOp(AddOpNext(s1), a, b);
    var t := MathOp(AddOpNext(s2), ab, c);
    EqualendTailStep(a, s1, b, s2);
    EqualendTailStep(ab, s2, c, s3);
    EqualendTailStops(t, s3);
    assert EqualendTail(a, s1) == (t, s3);
    EqualendUnfold(s, a, s1);
    assert Ws(s3) == s3;
  }

  /** `*` and `/` associate to the left: `a * b / c` is `(a * b) / c`. */
  lemma AddendLeftAssoc(s: string, a: Term, s1: string, b: Term, s2: string, c: Term, s3: string)
    requires MulNext(s1) && MulNext(s2) && !MulNext(s3)
    requires ParseMultiplicand(Ws(s)) == Ok(a, s1)
    requires ParseMultiplicand(Ws(AfterOp(s1))) == Ok(b, s2)
    requires ParseMultiplicand(Ws(AfterOp(s2))) == Ok(c, s3)
    ensures ParseAddend(s) == Ok(MathOp(MulOpNext(s2), MathOp(MulOpNext(s1), a, b), c), Ws(s3))
  {
    var ab := MathOp(MulOpNext(s1), a, b);
    var t := MathOp(MulOpNext(s2), ab, c);
    AddendTailStep(a, s1, b, s2);
    WsIdem(s2);
    AddendTailStep(ab, Ws(s2), c, s3);
    WsIdem(s3);
    AddendTailStops(t, Ws(s3));
    assert AddendTail(a, s1) == (t, Ws(s3));
    AddendUnfold(s, a, s1);
  }

  /** `*` binds tighter than `+`: when a multiplicand `a` is followed by `+`
      and then by `b * c`, the product is the right operand of the sum. */
  lemma ProductBindsTighter(s: string, a: Term, s1: string, b: Term, s2: string, c: Term, s3: string)
    requires AddNext(s1) && MulNext(s2) && Ws(s3) == []
    requires ParseMultiplicand(Ws(s)) == Ok(a, s1)
    requires ParseMultiplicand(Ws(AfterOp(s1))) == Ok(b, s2)
    requires ParseMultiplicand(Ws(AfterOp(s2))) == Ok(c, s3)
    ensures ParseEqualend(s) == Ok(MathOp(AddOpNext(s1), a, MathOp(MulOpNext(s2), b, c)), [])
  {
    WsIdem(s);
    WsIdem(s1);
    // the left operand is a whole addend, and the blanks before `+` are gone
    AddNextNotMul(s1);
    AddendOfMultiplicand(Ws(s), a, s1);
    var x := Ws(s1);
    assert AddNext(x) && AfterOp(x) == AfterOp(s1) && AddOpNext(x) == AddOpNext(s1);
    // the right operand is the product
    var prod := MathOp(MulOpNext(s2), b, c);
    AddendTailStep(b, s2, c, s3);
    AddendTailStops(prod, Ws(s3));
    WsIdem(AfterOp(s1));
    AddendUnfold(Ws(AfterOp(s1)), b, s2);
    // and the sum ends the equalend
    EqualendTailStep(a, x, prod, []);
    EqualendTailStops(MathOp(AddOpNext(s1), a, prod), []);
    EqualendUnfold(s, a, x);
  }

  /** A term holds at most one comparison: after `l == r` (or `l != r`) the
      parse stops, whatever follows, so `1 == 2 == 3` leaves `== 3` unread. */
  lemma ComparisonDoesNotChain(s: string, l: Term, y: string, r: Term, z: string)
    requires StartsWith(y, "==") || StartsWith(y, "!=")
    requires ParseEqualend(Ws(s)) == Ok(l, y)
    requires ParseEqualend(Ws(y[2..])) == Ok(r, z)
    ensures ParseTerm(s) == Ok(if StartsWith(y, "==") then Equals(l, r) else NotEquals(l, r), z)
  {
  }

  /** Without a comparison operator after it, a term is its equalend. */
  lemma TermWithoutComparison(s: string, l: Term, y: string)
    requires !StartsWith(y, "==") && !StartsWith(y, "!=")
    requires ParseEqualend(Ws(s)) == Ok(l, y)
    ensures ParseTerm(s) == Ok(l, y)
  {
  }

  /** `if c then t else f endif` is a multiplicand that builds the
      conditional of its three terms, in that order. */
  lemma IfShape(s: string, c: Term, y1: string, tb: Term, y2: string, eb: Term, y3: string)
    requires StartsWith(s, "if") && ParseTerm(s[2..]) == Ok(c, y1)
    requires StartsWith(y1, "then") && ParseTerm(y1[4..]) == Ok(tb, y2)
    requires StartsWith(y2, "else") && ParseTerm(y2[4..]) == Ok(eb, y3)
    requires StartsWith(y3, "endif")
    ensures ParseMultiplicand(s) == Ok(IfStmt(c, tb, eb), y3[5..])
  {
    var r := Ok(IfStmt(c, tb, eb), y3[5..]);
    assert IfElse(c, tb, y2) == r;
    assert IfThen(c, y1) == r;
    assert ParseIf(s) == r;
  }

  /** `\x . t` builds the lambda with parameter `x` and body `t`. */
  lemma LambdaShape(s: string, s2: string, x: string, y: string, y2: string, body: Term, z: string)
    requires StartsWith(Ws(s), "\\") && s2 == Ws(Ws(s)[1..])
    requires ParseVariable(s2) == Ok(Var(x), y)
    requires StartsWith(Ws(y), ".") && y2 == Ws(Ws(y)[1..])
    requires ParseTerm(y2) == Ok(body, z)
    ensures ParseLambda(s) == Ok(Lambda(x, body), Ws(z))
  {
  }

  /** `name := t` builds the assignment of `t` to `name`. */
  lemma AssignmentShape(s: string, x: string, y: string, y2: string, e: Term, z: string)
    requires ParseVariable(Ws(s)) == Ok(Var(x), y)
    requires StartsWith(Ws(y), ":=") && y2 == Ws(Ws(y)[2..])
    requires ParseTerm(y2) == Ok(e, z)
    ensures ParseAssignment(s) == Ok(Assignm(x, e), z)
  {
  }
}
