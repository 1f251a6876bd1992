/**
 * The arithmetic evaluator: a recursive-descent parser that computes as it reads. The C library's
 * number reader, power and remainder are parameters.
 */
module Evaluator {
  import opened Basics

  /** A double: a finite one as a real, or one of the infinities and NaNs. */
  datatype Num = Finite(v: real) | Special(code: int)

  /**
   * `strtod(s, i)` is the number read at `i` and the position after it; `i` itself if there is none. `special`
   * is what the operators give when an operand is not finite.
   */
  datatype Lib = Lib(strtod: (string, nat) -> (Num, nat), pow: (Num, Num) -> Num, fmod: (Num, Num) -> Num, special: (char, Num, Num) -> Num)

  function Plus(lib: Lib, x: Num, y: Num): Num {
    if x.Finite? && y.Finite? then Finite(x.v + y.v) else lib.special('+', x, y)
  }
  function Minus(lib: Lib, x: Num, y: Num): Num {
    if x.Finite? && y.Finite? then Finite(x.v - y.v) else lib.special('-', x, y)
  }
  function Times(lib: Lib, x: Num, y: Num): Num {
    if x.Finite? && y.Finite? then Finite(RealTimes(x.v, y.v)) else lib.special('*', x, y)
  }

  function Over(lib: Lib, x: Num, y: Num): Num
    requires y != Finite(0.0)
  {
    if x.Finite? && y.Finite? then Finite(x.v / y.v) else lib.special('/', x, y)
  }

  ghost predicate Reads(lib: Lib, s: string) {
    forall i: nat :: i <= |s| ==> i <= lib.strtod(s, i).1 <= |s|
  }

  // ---------------------------------------------------------------- trees and their values

  datatype Base = Number(n: Num) | Group(e: Expr)
  datatype Factor = Factor(neg: bool, base: Base, exp: Exponent)
  datatype Exponent = NoExp | Power(f: Factor)
  datatype Term = OneFactor(f: Factor) | Product(t: Term, op: char, f: Factor)
  datatype Expr = OneTerm(t: Term) | Sum(e: Expr, op: char, t: Term)

  predicate MulOp(c: char) { c == '*' || c == '/' || c == '%' }
  predicate AddOp(c: char) { c == '+' || c == '-' }

  function BaseValue(lib: Lib, b: Base): Option<Num> {
    match b
    case Number(v) => Some(v)
    case Group(e) => ExprValue(lib, e)
  }

  /** Unary minus applies to the power. */
  function FactorValue(lib: Lib, f: Factor): Option<Num> {
    var b := BaseValue(lib, f.base);
    match f.exp
    case NoExp => if b.None? then None else Some(Signed(lib, f.neg, b.value))
    case Power(g) =>
      var x := FactorValue(lib, g);
      if b.None? || x.None? then None else Some(Signed(lib, f.neg, lib.pow(b.value, x.value)))
  }

  function Signed(lib: Lib, neg: bool, x: Num): Num { if neg then Minus(lib, Finite(0.0), x) else x }

  /** Undefined on a zero divisor. */
  function Multiply(lib: Lib, x: Num, op: char, y: Num): Option<Num> {
    if op == '*' then Some(Times(lib, x, y))
    else if y == Finite(0.0) then None
    else if op == '/' then Some(Over(lib, x, y))
    else Some(lib.fmod(x, y))
  }

  function TermValue(lib: Lib, t: Term): Option<Num> {
    match t
    case OneFactor(f) => FactorValue(lib, f)
    case Product(u, op, f) =>
      var x, y := TermValue(lib, u), FactorValue(lib, f);
      if x.None? || y.None? then None else Multiply(lib, x.value, op, y.value)
  }

  function ExprValue(lib: Lib, e: Expr): Option<Num> {
    match e
    case OneTerm(t) => TermValue(lib, t)
    case Sum(d, op, t) =>
      var x, y := ExprValue(lib, d), TermValue(lib, t);
      if x.None? || y.None? then None else Some(if op == '+' then Plus(lib, x.value, y.value) else Minus(lib, x.value, y.value))
  }

  // ---------------------------------------------------------------- the grammar

  /** The character at `i`; NUL at the end. */
  function At(s: string, i: nat): char { if i < |s| then s[i] else '\0' }

  function Skip(s: string, i: nat): (k: nat)
    requires i <= |s|
    ensures i <= k <= |s| && At(s, k) != ' '
    decreases |s| - i
  {
    if i < |s| && s[i] == ' ' then Skip(s, i + 1) else i
  }

  /** Character `c` comes next, after spaces. */
  predicate Next(s: string, i: nat, c: char) { i <= |s| && At(s, Skip(s, i)) == c && c != '\0' }

  /** The text from `i` to `j` can be read as `b`; spaces may stand before every token. */
  ghost predicate BaseSpans(lib: Lib, s: string, i: nat, j: nat, b: Base)
    decreases b
  {
    && i <= |s|
    && match b
       case Number(v) => At(s, Skip(s, i)) != '(' && lib.strtod(s, Skip(s, i)) == (v, j) && Skip(s, i) < j <= |s|
       case Group(e) => Next(s, i, '(') && exists m: nat :: ExprSpans(lib, s, Skip(s, i) + 1, m, e) && Next(s, m, ')') && j == Skip(s, m) + 1
  }

  /** Where the base of a factor starts. */
  function Start(s: string, i: nat, neg: bool): (k: nat)
    requires i <= |s| && (neg ==> Next(s, i, '-'))
    ensures i <= k <= |s|
  {
    if neg then Skip(s, i) + 1 else i
  }

  /** A leading minus belongs to the factor, not to the number. */
  ghost predicate FactorSpans(lib: Lib, s: string, i: nat, j: nat, f: Factor)
    decreases f
  {
    && i <= |s| && f.neg == Next(s, i, '-')
    && match f.exp
       case NoExp => BaseSpans(lib, s, Start(s, i, f.neg), j, f.base)
       case Power(g) =>
         exists m: nat :: BaseSpans(lib, s, Start(s, i, f.neg), m, f.base) && Next(s, m, '^') && FactorSpans(lib, s, Skip(s, m) + 1, j, g)
  }

  ghost predicate TermSpans(lib: Lib, s: string, i: nat, j: nat, t: Term)
    decreases t
  {
    match t
    case OneFactor(f) => FactorSpans(lib, s, i, j, f)
    case Product(u, op, f) =>
      MulOp(op) && exists m: nat :: TermSpans(lib, s, i, m, u) && Next(s, m, op) && FactorSpans(lib, s, Skip(s, m) + 1, j, f)
  }

  ghost predicate ExprSpans(lib: Lib, s: string, i: nat, j: nat, e: Expr)
    decreases e
  {
    match e
    case OneTerm(t) => TermSpans(lib, s, i, j, t)
    case Sum(d, op, t) =>
      AddOp(op) && exists m: nat :: ExprSpans(lib, s, i, m, d) && Next(s, m, op) && TermSpans(lib, s, Skip(s, m) + 1, j, t)
  }

  // ---------------------------------------------------------------- the parser as a function

  datatype Parsed<T> = Fail | Ok(tree: T, pos: nat)

  function ParseBase(lib: Lib, s: string, i: nat): (r: Parsed<Base>)
    requires i <= |s|
    ensures r.Ok? ==> i < r.pos <= |s|
    decreases |s| - i, 0
  {
    var k := Skip(s, i);
    if At(s, k) == '(' then
      var e := ParseExpr(lib, s, k + 1);
      if e.Ok? && At(s, Skip(s, e.pos)) == ')' then Ok(Group(e.tree), Skip(s, e.pos) + 1) else Fail
    else
      var n := lib.strtod(s, k);
      if k < n.1 <= |s| then Ok(Number(n.0), n.1) else Fail
  }

  function ParseFactor(lib: Lib, s: string, i: nat): (r: Parsed<Factor>)
    requires i <= |s|
    ensures r.Ok? ==> i < r.pos <= |s|
    decreases |s| - i, 1
  {
    var k := Skip(s, i);
    var neg := At(s, k) == '-';
    var b := ParseBase(lib, s, if neg then k + 1 else k);
    if b.Fail? then Fail else FactorRest(lib, s, neg, b.tree, b.pos)
  }

  function FactorRest(lib: Lib, s: string, neg: bool, b: Base, p: nat): (r: Parsed<Factor>)
    requires p <= |s|
    ensures r.Ok? ==> p <= r.pos <= |s|
    decreases |s| - p, 0
  {
    var m := Skip(s, p);
    if At(s, m) == '^' then
      var f := ParseFactor(lib, s, m + 1);
      if f.Ok? then Ok(Factor(neg, b, Power(f.tree)), f.pos) else Fail
    else Ok(Factor(neg, b, NoExp), m)
  }

  function ParseTerm(lib: Lib, s: string, i: nat): (r: Parsed<Term>)
    requires i <= |s|
    ensures r.Ok? ==> i < r.pos <= |s|
    decreases |s| - i, 3
  {
    var f := ParseFactor(lib, s, i);
    if f.Fail? then Fail else TermRest(lib, s, OneFactor(f.tree), f.pos)
  }

  function TermRest(lib: Lib, s: string, acc: Term, i: nat): (r: Parsed<Term>)
    requires i <= |s|
    ensures r.Ok? ==> i <= r.pos <= |s|
    decreases |s| - i, 2
  {
    var k := Skip(s, i);
    if MulOp(At(s, k)) then
      var f := ParseFactor(lib, s, k + 1);
      if f.Ok? then TermRest(lib, s, Product(acc, At(s, k), f.tree), f.pos) else Fail
    else Ok(acc, k)
  }

  function ParseExpr(lib: Lib, s: string, i: nat): (r: Parsed<Expr>)
    requires i <= |s|
    ensures r.Ok? ==> i < r.pos <= |s|
    decreases |s| - i, 5
  {
    var t := ParseTerm(lib, s, i);
    if t.Fail? then Fail else ExprRest(lib, s, OneTerm(t.tree), t.pos)
  }

  function ExprRest(lib: Lib, s: string, acc: Expr, i: nat): (r: Parsed<Expr>)
    requires i <= |s|
    ensures r.Ok? ==> i <= r.pos <= |s|
    decreases |s| - i, 4
  {
    var k := Skip(s, i);
    if AddOp(At(s, k)) then
      var t := ParseTerm(lib, s, k + 1);
      if t.Ok? then ExprRest(lib, s, Sum(acc, At(s, k), t.tree), t.pos) else Fail
    else Ok(acc, k)
  }

  // ---------------------------------------------------------------- the parser accepts only the grammar

  ghost predicate TermEnds(lib: Lib, s: string, i: nat, p: nat, t: Term) {
    exists j: nat :: TermSpans(lib, s, i, j, t) && j <= |s| && p == Skip(s, j)
  }

  ghost predicate ExprEnds(lib: Lib, s: string, i: nat, p: nat, e: Expr) {
    exists j: nat :: ExprSpans(lib, s, i, j, e) && j <= |s| && p == Skip(s, j)
  }

  ghost predicate FactorEnds(lib: Lib, s: string, i: nat, p: nat, f: Factor) {
    exists j: nat :: FactorSpans(lib, s, i, j, f) && j <= |s| && p == Skip(s, j)
  }

  lemma SkipTwice(s: string, i: nat)
    requires i <= |s|
    ensures Skip(s, Skip(s, i)) == Skip(s, i)
  { }

  lemma {:induction false} BaseSound(lib: Lib, s: string, i: nat)
    requires i <= |s| && ParseBase(lib, s, i).Ok?
    ensures var r := ParseBase(lib, s, i); BaseSpans(lib, s, i, r.pos, r.tree)
    decreases |s| - i, 0
  {
    var k := Skip(s, i);
    if At(s, k) == '(' {
      ExprSound(lib, s, k + 1);
      var e := ParseExpr(lib, s, k + 1);
      var m: nat :| ExprSpans(lib, s, k + 1, m, e.tree) && m <= |s| && e.pos == Skip(s, m);
      SkipTwice(s, m);
      assert Next(s, m, ')');
    }
  }

  lemma {:induction false} FactorSound(lib: Lib, s: string, i: nat)
    requires i <= |s| && ParseFactor(lib, s, i).Ok?
    ensures var r := ParseFactor(lib, s, i); FactorEnds(lib, s, i, r.pos, r.tree)
    decreases |s| - i, 1
  {
    var neg := Next(s, i, '-');
    var start := if neg then Skip(s, i) + 1 else Skip(s, i);
    BaseSound(lib, s, start);
    var b := ParseBase(lib, s, start);
    BaseFromSkip(lib, s, i, b.pos, b.tree);
    FactorRestSound(lib, s, i, b.tree, b.pos);
  }

  lemma {:induction false} FactorRestSound(lib: Lib, s: string, i: nat, b: Base, p: nat)
    requires i < p <= |s| && BaseSpans(lib, s, Start(s, i, Next(s, i, '-')), p, b)
    requires FactorRest(lib, s, Next(s, i, '-'), b, p).Ok?
    ensures var r := FactorRest(lib, s, Next(s, i, '-'), b, p); FactorEnds(lib, s, i, r.pos, r.tree)
    decreases |s| - p, 1
  {
    var m := Skip(s, p);
    if At(s, m) == '^' {
      FactorSound(lib, s, m + 1);
      var g := ParseFactor(lib, s, m + 1);
      var j: nat :| FactorSpans(lib, s, m + 1, j, g.tree) && j <= |s| && g.pos == Skip(s, j);
      MakePower(lib, s, i, p, j, b, g.tree);
    } else {
      MakeFactor(lib, s, i, p, b);
    }
  }

  lemma MakeFactor(lib: Lib, s: string, i: nat, m: nat, b: Base)
    requires i <= |s| && BaseSpans(lib, s, Start(s, i, Next(s, i, '-')), m, b)
    ensures FactorSpans(lib, s, i, m, Factor(Next(s, i, '-'), b, NoExp))
  { }

  lemma MakePower(lib: Lib, s: string, i: nat, m: nat, j: nat, b: Base, g: Factor)
    requires i <= |s| && BaseSpans(lib, s, Start(s, i, Next(s, i, '-')), m, b)
    requires Next(s, m, '^') && FactorSpans(lib, s, Skip(s, m) + 1, j, g)
    ensures FactorSpans(lib, s, i, j, Factor(Next(s, i, '-'), b, Power(g)))
  { }

  /** Leading spaces make no difference. */
  lemma BaseFromSkip(lib: Lib, s: string, i: nat, j: nat, b: Base)
    requires i <= |s|
    ensures BaseSpans(lib, s, i, j, b) <==> BaseSpans(lib, s, Skip(s, i), j, b)
  {
    SkipTwice(s, i);
  }

  lemma {:induction false} TermSound(lib: Lib, s: string, i: nat)
    requires i <= |s| && ParseTerm(lib, s, i).Ok?
    ensures var r := ParseTerm(lib, s, i); TermEnds(lib, s, i, r.pos, r.tree)
    decreases |s| - i, 3
  {
    var f := ParseFactor(lib, s, i);
    FactorSound(lib, s, i);
    var j: nat :| FactorSpans(lib, s, i, j, f.tree) && j <= |s| && f.pos == Skip(s, j);
    assert TermSpans(lib, s, i, j, OneFactor(f.tree));
    TermRestSound(lib, s, i, OneFactor(f.tree), f.pos);
  }

  lemma {:induction false} TermRestSound(lib: Lib, s: string, i: nat, acc: Term, p: nat)
    requires i < p <= |s| && TermEnds(lib, s, i, p, acc) && TermRest(lib, s, acc, p).Ok?
    ensures var r := TermRest(lib, s, acc, p); TermEnds(lib, s, i, r.pos, r.tree)
    decreases |s| - p, 2
  {
    var m: nat :| TermSpans(lib, s, i, m, acc) && m <= |s| && p == Skip(s, m);
    SkipTwice(s, m);
    if MulOp(At(s, p)) {
      var f := ParseFactor(lib, s, p + 1);
      FactorSound(lib, s, p + 1);
      var j: nat :| FactorSpans(lib, s, p + 1, j, f.tree) && j <= |s| && f.pos == Skip(s, j);
      assert Next(s, m, At(s, p));
      assert TermSpans(lib, s, i, j, Product(acc, At(s, p), f.tree));
      TermRestSound(lib, s, i, Product(acc, At(s, p), f.tree), f.pos);
    }
  }

  lemma {:induction false} ExprSound(lib: Lib, s: string, i: nat)
    requires i <= |s| && ParseExpr(lib, s, i).Ok?
    ensures var r := ParseExpr(lib, s, i); ExprEnds(lib, s, i, r.pos, r.tree)
    decreases |s| - i, 5
  {
    var t := ParseTerm(lib, s, i);
    TermSound(lib, s, i);
    var j: nat :| TermSpans(lib, s, i, j, t.tree) && j <= |s| && t.pos == Skip(s, j);
    assert ExprSpans(lib, s, i, j, OneTerm(t.tree));
    ExprRestSound(lib, s, i, OneTerm(t.tree), t.pos);
  }

  lemma {:induction false} ExprRestSound(lib: Lib, s: string, i: nat, acc: Expr, p: nat)
    requires i < p <= |s| && ExprEnds(lib, s, i, p, acc) && ExprRest(lib, s, acc, p).Ok?
    ensures var r := ExprRest(lib, s, acc, p); ExprEnds(lib, s, i, r.pos, r.tree)
    decreases |s| - p, 4
  {
    var m: nat :| ExprSpans(lib, s, i, m, acc) && m <= |s| && p == Skip(s, m);
    SkipTwice(s, m);
    if AddOp(At(s, p)) {
      var t := ParseTerm(lib, s, p + 1);
      TermSound(lib, s, p + 1);
      var j: nat :| TermSpans(lib, s, p + 1, j, t.tree) && j <= |s| && t.pos == Skip(s, j);
      assert Next(s, m, At(s, p));
      assert ExprSpans(lib, s, i, j, Sum(acc, At(s, p), t.tree));
      ExprRestSound(lib, s, i, Sum(acc, At(s, p), t.tree), t.pos);
    }
  }
}
