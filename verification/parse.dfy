/** The recursive-descent parser.  Each nonterminal is a function from the
    remaining input to either the term it recognised together with the input
    left after it, or a failure that carries the input at which the failing
    alternative was tried. */
module Parse {
  import opened Ast

  datatype Parsed = Ok(t: Term, rest: string) | Fail(at: string)

  /** `r` is what is left of `s` after some prefix of `s` has been consumed. */
  predicate IsSuffix(r: string, s: string) {
    |r| <= |s| && r == s[|s| - |r|..]
  }

  lemma SuffixTrans(a: string, b: string, c: string)
    requires IsSuffix(a, b) && IsSuffix(b, c)
    ensures IsSuffix(a, c)
  {
    assert c[|c| - |b|..][|b| - |a|..] == c[|c| - |a|..];
  }

  /** A successful parse consumed at least one character of `s` and left a
      suffix of it; a failure points into `s`. */
  predicate Consumes(s: string, r: Parsed) {
    match r
    case Ok(_, rest) => |rest| < |s| && IsSuffix(rest, s)
    case Fail(at) => IsSuffix(at, s)
  }

  predicate StartsWith(s: string, p: string) {
    |p| <= |s| && s[..|p|] == p
  }

  // ---------------------------------------------------------------------
  // Lexical classes

  predicate IsWs(c: char) {
    c == ' ' || c == '\t' || c == '\r' || c == '\n'
  }

  predicate IsDigit(c: char) {
    '0' <= c <= '9'
  }

  /** `[a-z_]` matched case-insensitively with Unicode simple case folding,
      which adds LATIN SMALL LETTER LONG S (folds to `s`) and KELVIN SIGN
      (folds to `k`) to the ASCII letters. */
  predicate IsIdentStart(c: char) {
    ('a' <= c <= 'z') || ('A' <= c <= 'Z') || c == '_' || c == '\U{017F}' || c == '\U{212A}'
  }

  predicate IsIdentChar(c: char) {
    IsIdentStart(c) || IsDigit(c)
  }

  /** The words a variable may not start with; the test is a case-sensitive
      prefix test, so `iffy` is rejected too. */
  const Reserved: seq<string> := ["if", "then", "else", "endif", "true", "false"]

  predicate StartsWithReserved(s: string) {
    exists i :: 0 <= i < |Reserved| && StartsWith(s, Reserved[i])
  }

  /** Skips blanks (space, tab, carriage return, line feed). */
  function Ws(s: string): (r: string)
    ensures IsSuffix(r, s)
    ensures r == [] || !IsWs(r[0])
  {
    if s != [] && IsWs(s[0]) then Ws(s[1..]) else s
  }

  /** Length of the longest prefix of `s` made of characters satisfying the class. */
  function IdentRun(s: string): (n: nat)
    ensures n <= |s|
    ensures forall i :: 0 <= i < n ==> IsIdentChar(s[i])
    ensures n == |s| || !IsIdentChar(s[n])
  {
    if s != [] && IsIdentChar(s[0]) then 1 + IdentRun(s[1..]) else 0
  }

  function DigitRun(s: string): (n: nat)
    ensures n <= |s|
    ensures forall i :: 0 <= i < n ==> IsDigit(s[i])
    ensures n == |s| || !IsDigit(s[n])
  {
    if s != [] && IsDigit(s[0]) then 1 + DigitRun(s[1..]) else 0
  }

  function DigitValue(c: char): nat
    requires IsDigit(c)
  {
    c as int - '0' as int
  }

  /** The base-10 value of a string of digits, most significant digit first. */
  function DecimalValue(ds: string): nat
    requires forall i :: 0 <= i < |ds| ==> IsDigit(ds[i])
  {
    if ds == [] then 0 else DecimalValue(ds[..|ds| - 1]) * 10 + DigitValue(ds[|ds| - 1])
  }

  // ---------------------------------------------------------------------
  // Tokens

  /** An identifier: the longest prefix matching `[A-Za-z_][A-Za-z0-9_]*`,
      provided the input does not start with a reserved word. */
  function ParseVariable(s: string): (r: Parsed)
    ensures Consumes(s, r)
    ensures r.Ok? <==> !StartsWithReserved(s) && |s| > 0 && IsIdentStart(s[0])
    ensures r.Ok? ==> r.t.Var? && r.t.name + r.rest == s
    ensures r.Ok? ==> forall i :: 0 <= i < |r.t.name| ==> IsIdentChar(r.t.name[i])
    ensures r.Ok? ==> r.rest == [] || !IsIdentChar(r.rest[0])
    ensures r.Fail? ==> r.at == s
  {
    if StartsWithReserved(s) || s == [] || !IsIdentStart(s[0]) then Fail(s)
    else
      var n := 1 + IdentRun(s[1..]);
      assert s[..n] + s[n..] == s;
      Ok(Var(s[..n]), s[n..])
  }

  /** The longest run of decimal digits, read as an unsigned 64-bit integer. */
  function ParseNumber(s: string): (r: Parsed)
    ensures Consumes(s, r)
    ensures r.Ok? <==> DigitRun(s) > 0 && DecimalValue(s[..DigitRun(s)]) < U64_LIMIT
    ensures r.Ok? ==> r.t == NumConst(DecimalValue(s[..DigitRun(s)])) && r.rest == s[DigitRun(s)..]
    ensures r.Fail? ==> r.at == s
  {
    var n := DigitRun(s);
    if n == 0 then Fail(s)
    else
      var v := DecimalValue(s[..n]);
      if v < U64_LIMIT then Ok(NumConst(v), s[n..]) else Fail(s)
  }

  /** The literal `true` or `false`, with no check of what follows it. */
  function ParseBoolean(s: string): (r: Parsed)
    ensures Consumes(s, r)
    ensures r.Ok? <==> StartsWith(s, "true") || StartsWith(s, "false")
    ensures r.Ok? && StartsWith(s, "true") ==> r.t == BoolConst(true) && r.rest == s[4..]
    ensures r.Ok? && !StartsWith(s, "true") ==> r.t == BoolConst(false) && r.rest == s[5..]
    ensures r.Fail? ==> r.at == s
  {
    if StartsWith(s, "true") then Ok(BoolConst(true), s[4..])
    else if StartsWith(s, "false") then Ok(BoolConst(false), s[5..])
    else Fail(s)
  }

  // ---------------------------------------------------------------------
  // The grammar, from highest to lowest precedence.  The second component
  // of every `decreases` is the nonterminal's level, so that a call on the
  // same input is allowed only downwards.

  /** The parenthesised alternative of `terminal`: `"(" (lambda | term) ")"`. */
  function ParseParenthesized(s: string): (r: Parsed)
    ensures Consumes(s, r)
    ensures r.Fail? ==> r.at == s
    decreases |s|, 0
  {
    if s != [] && s[0] == '(' then
      var lam := ParseLambda(s[1..]);
      var inner := if lam.Ok? then lam else ParseTerm(s[1..]);
      if inner.Ok? && inner.rest != [] && inner.rest[0] == ')' then
        SuffixTrans(inner.rest, s[1..], s);
        SuffixTrans(inner.rest[1..], inner.rest, s);
        Ok(inner.t, inner.rest[1..])
      else Fail(s)
    else Fail(s)
  }

  /** `terminal := variable | number | boolean | "(" (lambda | term) ")"` */
  function ParseTerminal(s: string): (r: Parsed)
    ensures Consumes(s, r)
    ensures r.Fail? ==> r.at == s
    decreases |s|, 1
  {
    var v := ParseVariable(s);
    if v.Ok? then v
    else
      var n := ParseNumber(s);
      if n.Ok? then n
      else
        var b := ParseBoolean(s);
        if b.Ok? then b
        else ParseParenthesized(s)
  }

  /** `lambda := "\" variable "." term`, blanks allowed between the parts. */
  function ParseLambda(s: string): (r: Parsed)
    ensures Consumes(s, r)
    ensures r.Ok? ==> r.t.Lambda? && (r.rest == [] || !IsWs(r.rest[0]))
    decreases |s|, 2
  {
    var s1 := Ws(s);
    if !StartsWith(s1, "\\") then Fail(s1)
    else
      var s2 := Ws(s1[1..]);
      SuffixTrans(s2, s1[1..], s1);
      SuffixTrans(s2, s1, s);
      match ParseVariable(s2)
      case Fail(at) =>
        SuffixTrans(at, s2, s);
        Fail(at)
      case Ok(x, y) =>
        SuffixTrans(y, s2, s);
        var r := LambdaBody(x.name, y);
        SuffixTrans(if r.Ok? then r.rest else r.at, y, s);
        r
  }

  /** The part of a lambda after its parameter `x`: `"." term`, blanks
      allowed around the dot and after the body. */
  function LambdaBody(x: string, y: string): (r: Parsed)
    ensures Consumes(y, r)
    ensures r.Ok? ==> r.t.Lambda? && r.t.varName == x && (r.rest == [] || !IsWs(r.rest[0]))
    decreases |y|, 2
  {
    var y1 := Ws(y);
    if !StartsWith(y1, ".") then Fail(y1)
    else
      var y2 := Ws(y1[1..]);
      SuffixTrans(y2, y1[1..], y1);
      SuffixTrans(y2, y1, y);
      match ParseTerm(y2)
      case Fail(at) =>
        SuffixTrans(at, y2, y);
        Fail(at)
      case Ok(body, z) =>
        SuffixTrans(z, y2, y);
        SuffixTrans(Ws(z), z, y);
        Ok(Lambda(x, body), Ws(z))
  }

  /** The repetition of `application`: each further terminal is applied to
      what has been built so far. */
  function ApplicationTail(acc: Term, s: string): (r: (Term, string))
    ensures IsSuffix(r.1, s)
    decreases |s|, 3
  {
    var x := Ws(s);
    match ParseTerminal(x)
    case Fail(_) => (acc, s)
    case Ok(arg, y) =>
      var y1 := Ws(y);
      SuffixTrans(y, x, s);
      SuffixTrans(y1, y, s);
      var r := ApplicationTail(Apply(arg, acc), y1);
      SuffixTrans(r.1, y1, s);
      r
  }

  /** `application := terminal { terminal }`, a left fold. */
  function ParseApplication(s: string): (r: Parsed)
    ensures Consumes(s, r)
    ensures r.Ok? ==> r.rest == [] || !IsWs(r.rest[0])
    decreases |s|, 4
  {
    var s1 := Ws(s);
    match ParseTerminal(s1)
    case Fail(at) =>
      SuffixTrans(at, s1, s);
      Fail(at)
    case Ok(first, y) =>
      SuffixTrans(y, s1, s);
      var (t, rest) := ApplicationTail(first, y);
      SuffixTrans(rest, y, s);
      SuffixTrans(Ws(rest), rest, s);
      Ok(t, Ws(rest))
  }

  /** `"if" term "then" term "else" term "endif"`; the keywords themselves are
      not preceded by a blank skip, the terms skip blanks on both sides. */
  function ParseIf(s: string): (r: Parsed)
    ensures Consumes(s, r)
    ensures r.Ok? ==> r.t.IfStmt?
    decreases |s|, 5
  {
    if !StartsWith(s, "if") then Fail(s)
    else
      match ParseTerm(s[2..])
      case Fail(at) =>
        SuffixTrans(at, s[2..], s);
        Fail(at)
      case Ok(c, y1) =>
        SuffixTrans(y1, s[2..], s);
        var r := IfThen(c, y1);
        SuffixTrans(if r.Ok? then r.rest else r.at, y1, s);
        r
  }

  /** The part of a conditional after its test `c`:
      `"then" term "else" term "endif"`. */
  function IfThen(c: Term, y1: string): (r: Parsed)
    ensures Consumes(y1, r)
    ensures r.Ok? ==> r.t.IfStmt? && r.t.test == c
    decreases |y1|, 5
  {
    if !StartsWith(y1, "then") then Fail(y1)
    else
      match ParseTerm(y1[4..])
      case Fail(at) =>
        SuffixTrans(at, y1[4..], y1);
        Fail(at)
      case Ok(tb, y2) =>
        SuffixTrans(y2, y1[4..], y1);
        var r := IfElse(c, tb, y2);
        SuffixTrans(if r.Ok? then r.rest else r.at, y2, y1);
        r
  }

  /** The part of a conditional after its then-branch `tb`:
      `"else" term "endif"`. */
  function IfElse(c: Term, tb: Term, y2: string): (r: Parsed)
    ensures Consumes(y2, r)
    ensures r.Ok? ==> r.t.IfStmt? && r.t.test == c && r.t.thenBody == tb
    decreases |y2|, 5
  {
    if !StartsWith(y2, "else") then Fail(y2)
    else
      match ParseTerm(y2[4..])
      case Fail(at) =>
        SuffixTrans(at, y2[4..], y2);
        Fail(at)
      case Ok(eb, y3) =>
        SuffixTrans(y3, y2[4..], y2);
        if !StartsWith(y3, "endif") then Fail(y3)
        else
          SuffixTrans(y3[5..], y3, y2);
          Ok(IfStmt(c, tb, eb), y3[5..])
  }

  /** `multiplicand := ifexpr | application` */
  function ParseMultiplicand(s: string): (r: Parsed)
    ensures Consumes(s, r)
    decreases |s|, 6
  {
    var i := ParseIf(s);
    if i.Ok? then i
    else
      var a := ParseApplication(s);
      if a.Ok? then a else Fail(s)
  }

  /** The repetition of `addend`: `{ ("*" | "/") multiplicand }`, folded to the left. */
  function AddendTail(acc: Term, s: string): (r: (Term, string))
    ensures IsSuffix(r.1, s)
    decreases |s|, 7
  {
    var x := Ws(s);
    if x != [] && (x[0] == '*' || x[0] == '/') then
      var x1 := Ws(x[1..]);
      SuffixTrans(x1, x[1..], x);
      SuffixTrans(x1, x, s);
      match ParseMultiplicand(x1)
      case Fail(_) => (acc, s)
      case Ok(m, y) =>
        var op := if x[0] == '*' then Multiply else Divide;
        var y1 := Ws(y);
        SuffixTrans(y, x1, s);
        SuffixTrans(y1, y, s);
        var r := AddendTail(MathOp(op, acc, m), y1);
        SuffixTrans(r.1, y1, s);
        r
    else (acc, s)
  }

  /** `addend := multiplicand { ("*" | "/") multiplicand }` */
  function ParseAddend(s: string): (r: Parsed)
    ensures Consumes(s, r)
    ensures r.Ok? ==> r.rest == [] || !IsWs(r.rest[0])
    decreases |s|, 8
  {
    var s1 := Ws(s);
    match ParseMultiplicand(s1)
    case Fail(at) =>
      SuffixTrans(at, s1, s);
      Fail(at)
    case Ok(first, y) =>
      SuffixTrans(y, s1, s);
      var (t, rest) := AddendTail(first, y);
      SuffixTrans(rest, y, s);
      SuffixTrans(Ws(rest), rest, s);
      Ok(t, Ws(rest))
  }

  /** The repetition of `equalend`: `{ ("+" | "-") addend }`, folded to the left. */
  function EqualendTail(acc: Term, s: string): (r: (Term, string))
    ensures IsSuffix(r.1, s)
    decreases |s|, 9
  {
    var x := Ws(s);
    if x != [] && (x[0] == '+' || x[0] == '-') then
      var x1 := Ws(x[1..]);
      SuffixTrans(x1, x[1..], x);
      SuffixTrans(x1, x, s);
      match ParseAddend(x1)
      case Fail(_) => (acc, s)
      case Ok(a, y) =>
        var op := if x[0] == '+' then Add else Minus;
        SuffixTrans(y, x1, s);
        var r := EqualendTail(MathOp(op, acc, a), y);
        SuffixTrans(r.1, y, s);
        r
    else (acc, s)
  }

  /** `equalend := addend { ("+" | "-") addend }` */
  function ParseEqualend(s: string): (r: Parsed)
    ensures Consumes(s, r)
    ensures r.Ok? ==> r.rest == [] || !IsWs(r.rest[0])
    decreases |s|, 10
  {
    var s1 := Ws(s);
    match ParseAddend(s1)
    case Fail(at) =>
      SuffixTrans(at, s1, s);
      Fail(at)
    case Ok(first, y) =>
      SuffixTrans(y, s1, s);
      var (t, rest) := EqualendTail(first, y);
      SuffixTrans(rest, y, s);
      SuffixTrans(Ws(rest), rest, s);
      Ok(t, Ws(rest))
  }

  /** The optional comparison of `term`: `[ ("==" | "!=") equalend ]`. */
  function ComparisonTail(left: Term, y: string): (r: (Term, string))
    ensures IsSuffix(r.1, y)
    ensures (y == [] || !IsWs(y[0])) ==> r.1 == [] || !IsWs(r.1[0])
    decreases |y|, 11
  {
    var y1 := Ws(y);
    if StartsWith(y1, "==") || StartsWith(y1, "!=") then
      var y2 := Ws(y1[2..]);
      SuffixTrans(y2, y1[2..], y1);
      SuffixTrans(y2, y1, y);
      match ParseEqualend(y2)
      case Ok(right, z) =>
        SuffixTrans(z, y2, y);
        (if StartsWith(y1, "==") then Equals(left, right) else NotEquals(left, right), z)
      case Fail(_) => (left, y)
    else (left, y)
  }

  /** `term := equalend [ ("==" | "!=") equalend ]`: at most one comparison. */
  function ParseTerm(s: string): (r: Parsed)
    ensures Consumes(s, r)
    ensures r.Ok? ==> r.rest == [] || !IsWs(r.rest[0])
    decreases |s|, 12
  {
    var s1 := Ws(s);
    match ParseEqualend(s1)
    case Fail(at) =>
      SuffixTrans(at, s1, s);
      Fail(at)
    case Ok(left, y) =>
      SuffixTrans(y, s1, s);
      var (t, rest) := ComparisonTail(left, y);
      SuffixTrans(rest, y, s);
      Ok(t, rest)
  }

  /** `assignment := variable ":=" term` */
  function ParseAssignment(s: string): (r: Parsed)
    ensures Consumes(s, r)
    ensures r.Ok? ==> r.t.Assignm? && (r.rest == [] || !IsWs(r.rest[0]))
  {
    var s1 := Ws(s);
    match ParseVariable(s1)
    case Fail(at) =>
      SuffixTrans(at, s1, s);
      Fail(at)
    case Ok(x, y) =>
      SuffixTrans(y, s1, s);
      var y1 := Ws(y);
      SuffixTrans(y1, y, s);
      if !StartsWith(y1, ":=") then Fail(y1)
      else
        var y2 := Ws(y1[2..]);
        SuffixTrans(y2, y1[2..], y1);
        SuffixTrans(y2, y1, s);
        match ParseTerm(y2)
        case Fail(at) =>
          SuffixTrans(at, y2, s);
          Fail(at)
        case Ok(e, z) =>
          SuffixTrans(z, y2, s);
          Ok(Assignm(x.name, e), z)
  }
}
