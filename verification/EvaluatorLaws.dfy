/** The evaluator accepts exactly the grammar, computes the denotation, and reads back what is printed. */
module EvaluatorLaws {
  import opened Basics
  import opened Evaluator

  // ---------------------------------------------------------------- the parser misses nothing

  lemma BaseBound(lib: Lib, s: string, i: nat, j: nat, b: Base)
    requires BaseSpans(lib, s, i, j, b)
    ensures i < j <= |s|
    decreases b
  {
    if b.Group? {
      var m: nat :| ExprSpans(lib, s, Skip(s, i) + 1, m, b.e) && Next(s, m, ')') && j == Skip(s, m) + 1;
      ExprBound(lib, s, Skip(s, i) + 1, m, b.e);
    }
  }

  lemma FactorBound(lib: Lib, s: string, i: nat, j: nat, f: Factor)
    requires FactorSpans(lib, s, i, j, f)
    ensures i < j <= |s|
    decreases f
  {
    var start := Start(s, i, f.neg);
    match f.exp
    case NoExp => BaseBound(lib, s, start, j, f.base);
    case Power(g) =>
      var m: nat :| BaseSpans(lib, s, start, m, f.base) && Next(s, m, '^') && FactorSpans(lib, s, Skip(s, m) + 1, j, g);
      BaseBound(lib, s, start, m, f.base);
      FactorBound(lib, s, Skip(s, m) + 1, j, g);
  }

  lemma TermBound(lib: Lib, s: string, i: nat, j: nat, t: Term)
    requires TermSpans(lib, s, i, j, t)
    ensures i < j <= |s|
    decreases t
  {
    match t
    case OneFactor(f) => FactorBound(lib, s, i, j, f);
    case Product(u, op, f) =>
      var m: nat :| TermSpans(lib, s, i, m, u) && Next(s, m, op) && FactorSpans(lib, s, Skip(s, m) + 1, j, f);
      TermBound(lib, s, i, m, u);
      FactorBound(lib, s, Skip(s, m) + 1, j, f);
  }

  lemma ExprBound(lib: Lib, s: string, i: nat, j: nat, e: Expr)
    requires ExprSpans(lib, s, i, j, e)
    ensures i < j <= |s|
    decreases e
  {
    match e
    case OneTerm(t) => TermBound(lib, s, i, j, t);
    case Sum(d, op, t) =>
      var m: nat :| ExprSpans(lib, s, i, m, d) && Next(s, m, op) && TermSpans(lib, s, Skip(s, m) + 1, j, t);
      ExprBound(lib, s, i, m, d);
      TermBound(lib, s, Skip(s, m) + 1, j, t);
  }

  predicate FollowFactor(s: string, j: nat) { j <= |s| && At(s, Skip(s, j)) != '^' }
  predicate FollowTerm(s: string, j: nat) { FollowFactor(s, j) && !MulOp(At(s, Skip(s, j))) }
  predicate FollowExpr(s: string, j: nat) { FollowTerm(s, j) && !AddOp(At(s, Skip(s, j))) }

  lemma BaseComplete(lib: Lib, s: string, i: nat, j: nat, b: Base)
    requires BaseSpans(lib, s, i, j, b)
    ensures ParseBase(lib, s, i) == Ok(b, j)
    decreases b, 0
  {
    match b
    case Number(v) =>
    case Group(e) =>
      var k := Skip(s, i) + 1;
      var m: nat :| ExprSpans(lib, s, k, m, e) && Next(s, m, ')') && j == Skip(s, m) + 1;
      ExprComplete(lib, s, k, m, e);
      SkipTwice(s, m);
  }

  lemma FactorComplete(lib: Lib, s: string, i: nat, j: nat, f: Factor)
    requires FactorSpans(lib, s, i, j, f) && FollowFactor(s, j)
    ensures ParseFactor(lib, s, i) == Ok(f, Skip(s, j))
    decreases f, 0
  {
    match f.exp
    case NoExp =>
      BaseBound(lib, s, Start(s, i, f.neg), j, f.base);
      FactorBase(lib, s, i, j, f);
    case Power(g) =>
      var m: nat :| BaseSpans(lib, s, Start(s, i, f.neg), m, f.base) && Next(s, m, '^') && FactorSpans(lib, s, Skip(s, m) + 1, j, g);
      FactorBase(lib, s, i, m, f);
      FactorComplete(lib, s, Skip(s, m) + 1, j, g);
  }

  lemma FactorBase(lib: Lib, s: string, i: nat, m: nat, f: Factor)
    requires i <= |s| && f.neg == Next(s, i, '-') && BaseSpans(lib, s, Start(s, i, f.neg), m, f.base)
    ensures m <= |s| && ParseFactor(lib, s, i) == FactorRest(lib, s, f.neg, f.base, m)
    decreases f.base, 1
  {
    BaseBound(lib, s, Start(s, i, f.neg), m, f.base);
    BaseFromSkip(lib, s, i, m, f.base);
    BaseComplete(lib, s, if f.neg then Skip(s, i) + 1 else Skip(s, i), m, f.base);
  }

  /** Having read `t`, the parser is at the loop head with `t` in hand. */
  lemma TermReaches(lib: Lib, s: string, i: nat, j: nat, t: Term)
    requires i <= |s| && TermSpans(lib, s, i, j, t) && FollowFactor(s, j)
    ensures ParseTerm(lib, s, i) == TermRest(lib, s, t, Skip(s, j))
    decreases t, 0
  {
    match t
    case OneFactor(f) => FactorComplete(lib, s, i, j, f);
    case Product(u, op, f) =>
      var m: nat :| TermSpans(lib, s, i, m, u) && Next(s, m, op) && FactorSpans(lib, s, Skip(s, m) + 1, j, f);
      TermReaches(lib, s, i, m, u);
      SkipTwice(s, m);
      FactorComplete(lib, s, Skip(s, m) + 1, j, f);
  }

  lemma TermComplete(lib: Lib, s: string, i: nat, j: nat, t: Term)
    requires i <= |s| && TermSpans(lib, s, i, j, t) && FollowTerm(s, j)
    ensures ParseTerm(lib, s, i) == Ok(t, Skip(s, j))
    decreases t, 1
  {
    TermReaches(lib, s, i, j, t);
    SkipTwice(s, j);
  }

  lemma ExprReaches(lib: Lib, s: string, i: nat, j: nat, e: Expr)
    requires i <= |s| && ExprSpans(lib, s, i, j, e) && FollowTerm(s, j)
    ensures ParseExpr(lib, s, i) == ExprRest(lib, s, e, Skip(s, j))
    decreases e, 0
  {
    match e
    case OneTerm(t) => TermComplete(lib, s, i, j, t);
    case Sum(d, op, t) =>
      var m: nat :| ExprSpans(lib, s, i, m, d) && Next(s, m, op) && TermSpans(lib, s, Skip(s, m) + 1, j, t);
      ExprReaches(lib, s, i, m, d);
      SkipTwice(s, m);
      TermComplete(lib, s, Skip(s, m) + 1, j, t);
  }

  lemma ExprComplete(lib: Lib, s: string, i: nat, j: nat, e: Expr)
    requires i <= |s| && ExprSpans(lib, s, i, j, e) && FollowExpr(s, j)
    ensures ParseExpr(lib, s, i) == Ok(e, Skip(s, j))
    decreases e, 1
  {
    ExprReaches(lib, s, i, j, e);
    SkipTwice(s, j);
  }

  // ---------------------------------------------------------------- the evaluator

  datatype Outcome = Bad | Good(v: Num, pos: nat)

  function BaseOutcome(lib: Lib, s: string, i: nat): Outcome
    requires i <= |s|
  {
    var p := ParseBase(lib, s, i);
    if p.Ok? && BaseValue(lib, p.tree).Some? then Good(BaseValue(lib, p.tree).value, p.pos) else Bad
  }

  function FactorOutcome(lib: Lib, s: string, i: nat): Outcome
    requires i <= |s|
  {
    var p := ParseFactor(lib, s, i);
    if p.Ok? && FactorValue(lib, p.tree).Some? then Good(FactorValue(lib, p.tree).value, p.pos) else Bad
  }

  function TermOutcome(lib: Lib, s: string, i: nat): Outcome
    requires i <= |s|
  {
    var p := ParseTerm(lib, s, i);
    if p.Ok? && TermValue(lib, p.tree).Some? then Good(TermValue(lib, p.tree).value, p.pos) else Bad
  }

  function ExprOutcome(lib: Lib, s: string, i: nat): Outcome
    requires i <= |s|
  {
    var p := ParseExpr(lib, s, i);
    if p.Ok? && ExprValue(lib, p.tree).Some? then Good(ExprValue(lib, p.tree).value, p.pos) else Bad
  }

  /** A zero divisor already met stays a zero divisor. */
  lemma TermStaysBad(lib: Lib, s: string, acc: Term, i: nat)
    requires i <= |s| && TermValue(lib, acc).None? && TermRest(lib, s, acc, i).Ok?
    ensures TermValue(lib, TermRest(lib, s, acc, i).tree).None?
    decreases |s| - i
  {
    var k := Skip(s, i);
    if MulOp(At(s, k)) {
      var f := ParseFactor(lib, s, k + 1);
      TermStaysBad(lib, s, Product(acc, At(s, k), f.tree), f.pos);
    }
  }

  lemma ExprStaysBad(lib: Lib, s: string, acc: Expr, i: nat)
    requires i <= |s| && ExprValue(lib, acc).None? && ExprRest(lib, s, acc, i).Ok?
    ensures ExprValue(lib, ExprRest(lib, s, acc, i).tree).None?
    decreases |s| - i
  {
    var k := Skip(s, i);
    if AddOp(At(s, k)) {
      var t := ParseTerm(lib, s, k + 1);
      ExprStaysBad(lib, s, Sum(acc, At(s, k), t.tree), t.pos);
    }
  }

  /** How a call relates to the outcome of the parse it stands for. */
  ghost predicate Agrees(o: Outcome, err0: bool, err: bool, v: Num, pos: nat) {
    && (err0 ==> err)
    && (!err0 ==> (err <==> o.Bad?))
    && (!err ==> o == Good(v, pos))
  }

  class EvalContext {
    const lib: Lib
    const s: string
    var pos: nat
    var err: bool

    ghost predicate Valid()
      reads this
    {
      pos <= |s| && Reads(lib, s)
    }

    constructor (lib: Lib, s: string)
      requires Reads(lib, s)
      ensures Valid() && this.lib == lib && this.s == s && pos == 0 && !err
    {
      this.lib, this.s, pos, err := lib, s, 0, false;
    }

    method SkipSpaces()
      requires Valid()
      modifies this`pos
      ensures Valid() && pos == Skip(s, old(pos))
    {
      while At(s, pos) == ' '
        invariant Valid() && Skip(s, pos) == Skip(s, old(pos))
        decreases |s| - pos
      {
        pos := pos + 1;
      }
    }

    method EvalBase() returns (v: Num)
      requires Valid()
      modifies this
      ensures Valid() && pos >= old(pos) && Agrees(BaseOutcome(lib, s, old(pos)), old(err), err, v, pos)
      decreases |s| - pos, 0
    {
      SkipSpaces();
      if At(s, pos) == '(' {
        pos := pos + 1;
        v := EvalExpr();
        ghost var p := pos;
        SkipSpaces();
        if At(s, pos) == ')' {
          pos := pos + 1;
        } else {
          err := true;
        }
      } else {
        var n := lib.strtod(s, pos);
        v := n.0;
        if n.1 == pos {
          err := true;
          return Finite(0.0);
        }
        pos := n.1;
      }
    }

    method EvalFactor() returns (v: Num)
      requires Valid()
      modifies this
      ensures Valid() && pos >= old(pos) && Agrees(FactorOutcome(lib, s, old(pos)), old(err), err, v, pos)
      decreases |s| - pos, 1
    {
      FactorFrom(lib, s, pos);
      SkipSpaces();
      var neg := false;
      if At(s, pos) == '-' {
        neg := true;
        pos := pos + 1;
      }
      v := EvalBase();
      SkipSpaces();
      if At(s, pos) == '^' {
        pos := pos + 1;
        var x := EvalFactor();
        v := lib.pow(v, x);
      }
      v := Signed(lib, neg, v);
    }

    /** Reads the factor after `op` and applies it; a zero divisor ends the term at once. */
    method EvalTermOp(v0: Num, op: char) returns (stop: bool, v: Num)
      requires Valid() && At(s, pos) == op && MulOp(op)
      modifies this
      ensures Valid() && pos > old(pos) && (old(err) ==> err) && (stop ==> err)
      ensures !old(err) ==>
        (match FactorOutcome(lib, s, old(pos) + 1)
         case Bad => err
         case Good(y, q) => if err then Multiply(lib, v0, op, y).None? else pos == q && Multiply(lib, v0, op, y) == Some(v))
      decreases |s| - pos, 0
    {
      pos := pos + 1;
      var rhs := EvalFactor();
      if op == '*' {
        return false, Times(lib, v0, rhs);
      }
      if rhs == Finite(0.0) {
        err := true;
        return true, Finite(0.0);
      }
      return false, if op == '/' then Over(lib, v0, rhs) else lib.fmod(v0, rhs);
    }

    method EvalTerm() returns (v: Num)
      requires Valid()
      modifies this
      ensures Valid() && pos >= old(pos) && Agrees(TermOutcome(lib, s, old(pos)), old(err), err, v, pos)
      decreases |s| - pos, 2
    {
      ghost var start, err0 := pos, err;
      v := EvalFactor();
      ghost var t := if err then NoTerm() else OneFactor(ParseFactor(lib, s, start).tree);
      if err && !err0 { TermFirstFails(lib, s, start); }
      while true
        invariant Valid() && pos >= start && (err0 ==> err) && TermAt(lib, s, start, err0, err, pos, t, v)
        decreases |s| - pos
      {
        ghost var p, good, w := pos, !err, v;
        SkipSpaces();
        var op := At(s, pos);
        if op != '*' && op != '/' && op != '%' { break; }
        ghost var k := pos + 1;
        var stop: bool;
        stop, v := EvalTermOp(v, op);
        if good { TermAfter(lib, s, start, p, t, w, err, pos, v); }
        t := if err then t else Product(t, op, ParseFactor(lib, s, k).tree);
        if stop { break; }
      }
    }

    method EvalExpr() returns (v: Num)
      requires Valid()
      modifies this
      ensures Valid() && pos >= old(pos) && Agrees(ExprOutcome(lib, s, old(pos)), old(err), err, v, pos)
      decreases |s| - pos, 3
    {
      ghost var start, err0 := pos, err;
      v := EvalTerm();
      ghost var e := if err then OneTerm(OneFactor(Factor(false, Number(v), NoExp))) else OneTerm(ParseTerm(lib, s, start).tree);
      if err && !err0 { ExprFirstFails(lib, s, start); }
      while true
        invariant Valid() && pos >= start && (err0 ==> err)
        invariant err && !err0 ==> ExprOutcome(lib, s, start).Bad?
        invariant !err ==> ParseExpr(lib, s, start) == ExprRest(lib, s, e, pos) && ExprValue(lib, e) == Some(v)
        decreases |s| - pos
      {
        ghost var p := pos;
        SkipSpaces();
        var op := At(s, pos);
        if op != '+' && op != '-' { break; }
        ghost var good := !err;
        ghost var k := pos;
        pos := pos + 1;
        var rhs := EvalTerm();
        ghost var more := if err then e else Sum(e, op, ParseTerm(lib, s, k + 1).tree);
        v := if op == '+' then Plus(lib, v, rhs) else Minus(lib, v, rhs);
        if good && err { ExprFails(lib, s, start, p, e); }
        e := more;
      }
    }
  }

  /** The outcome of a factor from those of its base and exponent. */
  lemma FactorFrom(lib: Lib, s: string, i: nat)
    requires i <= |s|
    ensures var neg := At(s, Skip(s, i)) == '-';
            var start := if neg then Skip(s, i) + 1 else Skip(s, i);
            match BaseOutcome(lib, s, start)
            case Bad => FactorOutcome(lib, s, i).Bad?
            case Good(x, p) =>
              if At(s, Skip(s, p)) == '^' then
                match FactorOutcome(lib, s, Skip(s, p) + 1)
                case Bad => FactorOutcome(lib, s, i).Bad?
                case Good(y, q) => FactorOutcome(lib, s, i) == Good(Signed(lib, neg, lib.pow(x, y)), q)
              else FactorOutcome(lib, s, i) == Good(Signed(lib, neg, x), Skip(s, p))
  {
    var neg := At(s, Skip(s, i)) == '-';
    var b := ParseBase(lib, s, if neg then Skip(s, i) + 1 else Skip(s, i));
    if b.Ok? {
      var r := FactorRest(lib, s, neg, b.tree, b.pos);
      assert ParseFactor(lib, s, i) == r;
    }
  }

  lemma TermFirstFails(lib: Lib, s: string, i: nat)
    requires i <= |s| && FactorOutcome(lib, s, i).Bad?
    ensures TermOutcome(lib, s, i).Bad?
  {
    var f := ParseFactor(lib, s, i);
    if f.Ok? && TermRest(lib, s, OneFactor(f.tree), f.pos).Ok? { TermStaysBad(lib, s, OneFactor(f.tree), f.pos); }
  }

  function NoTerm(): Term { OneFactor(Factor(false, Number(Finite(0.0)), NoExp)) }

  /** At the loop head: failed for good, or `t` has been read and its value is `v`. */
  ghost predicate TermAt(lib: Lib, s: string, start: nat, err0: bool, err: bool, pos: nat, t: Term, v: Num)
    requires start <= |s| && pos <= |s|
  {
    && (err && !err0 ==> TermOutcome(lib, s, start).Bad?)
    && (!err ==> ParseTerm(lib, s, start) == TermRest(lib, s, t, pos) && TermValue(lib, t) == Some(v))
  }

  /** One more factor: if it fails, or is a zero divisor, the term fails. */
  lemma TermNext(lib: Lib, s: string, i: nat, p: nat, t: Term, v: Num)
    requires i <= |s| && p <= |s| && ParseTerm(lib, s, i) == TermRest(lib, s, t, p) && TermValue(lib, t) == Some(v)
    requires MulOp(At(s, Skip(s, p)))
    ensures var k := Skip(s, p) + 1;
            match FactorOutcome(lib, s, k)
            case Bad => TermOutcome(lib, s, i).Bad?
            case Good(y, q) =>
              var u := Product(t, At(s, k - 1), ParseFactor(lib, s, k).tree);
              && ParseTerm(lib, s, i) == TermRest(lib, s, u, q) && TermValue(lib, u) == Multiply(lib, v, At(s, k - 1), y)
              && (TermValue(lib, u).None? ==> TermOutcome(lib, s, i).Bad?)
  {
    var k := Skip(s, p) + 1;
    var f := ParseFactor(lib, s, k);
    if f.Ok? {
      var u := Product(t, At(s, k - 1), f.tree);
      if TermValue(lib, u).None? && TermRest(lib, s, u, f.pos).Ok? { TermStaysBad(lib, s, u, f.pos); }
    }
  }

  /** What one round of the term loop establishes, from what reading the factor told. */
  lemma TermAfter(lib: Lib, s: string, i: nat, p: nat, t: Term, w: Num, err: bool, pos: nat, v: Num)
    requires i <= |s| && p <= |s| && pos <= |s| && ParseTerm(lib, s, i) == TermRest(lib, s, t, p) && TermValue(lib, t) == Some(w)
    requires MulOp(At(s, Skip(s, p)))
    requires var k := Skip(s, p) + 1;
             match FactorOutcome(lib, s, k)
             case Bad => err
             case Good(y, q) =>
               if err then Multiply(lib, w, At(s, k - 1), y).None? else pos == q && Multiply(lib, w, At(s, k - 1), y) == Some(v)
    ensures var k := Skip(s, p) + 1;
            TermAt(lib, s, i, false, err, pos, if err then t else Product(t, At(s, k - 1), ParseFactor(lib, s, k).tree), v)
  {
    TermNext(lib, s, i, p, t, w);
  }

  lemma ExprFirstFails(lib: Lib, s: string, i: nat)
    requires i <= |s| && TermOutcome(lib, s, i).Bad?
    ensures ExprOutcome(lib, s, i).Bad?
  {
    var t := ParseTerm(lib, s, i);
    if t.Ok? && ExprRest(lib, s, OneTerm(t.tree), t.pos).Ok? { ExprStaysBad(lib, s, OneTerm(t.tree), t.pos); }
  }

  lemma ExprFails(lib: Lib, s: string, i: nat, p: nat, e: Expr)
    requires i <= |s| && p <= |s| && ParseExpr(lib, s, i) == ExprRest(lib, s, e, p)
    requires AddOp(At(s, Skip(s, p))) && TermOutcome(lib, s, Skip(s, p) + 1).Bad?
    ensures ExprOutcome(lib, s, i).Bad?
  {
    var t := ParseTerm(lib, s, Skip(s, p) + 1);
    if t.Ok? && ExprRest(lib, s, Sum(e, At(s, Skip(s, p)), t.tree), t.pos).Ok? {
      ExprStaysBad(lib, s, Sum(e, At(s, Skip(s, p)), t.tree), t.pos);
    }
  }

  // ---------------------------------------------------------------- acceptance

  /** The whole text is `e`, up to spaces. */
  ghost predicate Sentence(lib: Lib, s: string, e: Expr) {
    exists j: nat :: ExprSpans(lib, s, 0, j, e) && j <= |s| && Skip(s, j) == |s|
  }

  predicate NulFree(s: string) { forall i :: 0 <= i < |s| ==> s[i] != '\0' }

  /** A sentence parses to its tree, so the grammar is unambiguous. */
  lemma SentenceParses(lib: Lib, s: string, e: Expr)
    requires Sentence(lib, s, e)
    ensures ParseExpr(lib, s, 0) == Ok(e, |s|)
  {
    var j: nat :| ExprSpans(lib, s, 0, j, e) && j <= |s| && Skip(s, j) == |s|;
    ExprComplete(lib, s, 0, j, e);
  }

  lemma ParsedIsSentence(lib: Lib, s: string)
    requires ParseExpr(lib, s, 0).Ok? && Skip(s, ParseExpr(lib, s, 0).pos) == |s|
    ensures Sentence(lib, s, ParseExpr(lib, s, 0).tree)
  {
    ExprSound(lib, s, 0);
    var r := ParseExpr(lib, s, 0);
    var j: nat :| ExprSpans(lib, s, 0, j, r.tree) && j <= |s| && r.pos == Skip(s, j);
    SkipTwice(s, j);
  }

  /** A value the source shows: infinities and NaNs are rejected at the end. */
  function FiniteValue(o: Option<Num>): Option<real> { if o.Some? && o.value.Finite? then Some(o.value.v) else None }

  ghost predicate ExprIs(lib: Lib, e: Expr, x: real) { ExprValue(lib, e) == Some(Finite(x)) }

  ghost predicate TermIs(lib: Lib, t: Term, x: real) { TermValue(lib, t) == Some(Finite(x)) }

  ghost predicate FactorIs(lib: Lib, f: Factor, x: real) { FactorValue(lib, f) == Some(Finite(x)) }

  ghost predicate BaseIs(lib: Lib, b: Base, x: real) { BaseValue(lib, b) == Some(Finite(x)) }

  /** The answer to a sum less one summand is the other, and to a difference plus the subtrahend the minuend. */
  ghost predicate SumLaws(lib: Lib, s: string, r: Option<real>) {
    && (forall e, t, x, y :: Sentence(lib, s, Sum(e, '+', t)) && ExprIs(lib, e, x) && TermIs(lib, t, y) ==>
          r.Some? && r.value - y == x)
    && (forall e, t, x, y :: Sentence(lib, s, Sum(e, '-', t)) && ExprIs(lib, e, x) && TermIs(lib, t, y) ==>
          r.Some? && r.value + y == x)
  }

  /** A product is the product; a quotient times the divisor is the dividend, and there is none by zero. */
  ghost predicate ProductLaws(lib: Lib, s: string, r: Option<real>) {
    && (forall t, f, x, y :: Sentence(lib, s, OneTerm(Product(t, '*', f))) && TermIs(lib, t, x) && FactorIs(lib, f, y) ==>
          r == Some(x * y))
    && (forall t, f, x, y :: Sentence(lib, s, OneTerm(Product(t, '/', f))) && TermIs(lib, t, x) && FactorIs(lib, f, y) ==>
          if y == 0.0 then r.None? else r.Some? && r.value * y == x)
    && (forall t, f :: Sentence(lib, s, OneTerm(Product(t, '%', f))) && FactorIs(lib, f, 0.0) ==> r.None?)
  }

  /** The sentence is one factor. */
  function Alone(f: Factor): Expr { OneTerm(OneFactor(f)) }

  /** The sign applies last; brackets and a missing sign change nothing; a number is itself. */
  ghost predicate SignLaws(lib: Lib, s: string, r: Option<real>) {
    && (forall b, x :: Sentence(lib, s, Alone(Factor(true, b, NoExp))) && BaseIs(lib, b, x) ==> r.Some? && r.value + x == 0.0)
    && (forall b, x :: Sentence(lib, s, Alone(Factor(false, b, NoExp))) && BaseIs(lib, b, x) ==> r == Some(x))
    && (forall e, x :: Sentence(lib, s, Alone(Factor(false, Group(e), NoExp))) && ExprIs(lib, e, x) ==> r == Some(x))
    && (forall x :: Sentence(lib, s, Alone(Factor(false, Number(Finite(x)), NoExp))) ==> r == Some(x))
  }

  /** Powers are the library's, and the sign applies after them. */
  ghost predicate PowerLaws(lib: Lib, s: string, r: Option<real>) {
    && (forall b, f, x, y :: Sentence(lib, s, Alone(Factor(true, b, Power(f)))) && BaseIs(lib, b, x) && FactorIs(lib, f, y) ==>
          var z := lib.pow(Finite(x), Finite(y)); z.Finite? ==> r.Some? && r.value + z.v == 0.0)
    && (forall b, f, x, y :: Sentence(lib, s, Alone(Factor(false, b, Power(f)))) && BaseIs(lib, b, x) && FactorIs(lib, f, y) ==>
          r == FiniteValue(Some(lib.pow(Finite(x), Finite(y)))))
  }

  lemma Quotient(x: real, y: real)
    requires y != 0.0
    ensures x / y * y == x
  { }

  lemma AloneValue(lib: Lib, f: Factor)
    ensures ExprValue(lib, Alone(f)) == FactorValue(lib, f)
  {
    assert ExprValue(lib, Alone(f)) == TermValue(lib, OneFactor(f));
  }

  lemma PowerValue(lib: Lib, neg: bool, b: Base, f: Factor, x: real, y: real)
    requires BaseIs(lib, b, x) && FactorIs(lib, f, y)
    ensures FactorValue(lib, Factor(neg, b, Power(f))) == Some(Signed(lib, neg, lib.pow(Finite(x), Finite(y))))
  { }

  /** Giving every sentence the value of its tree keeps the laws of arithmetic. */
  lemma SumLawsHold(lib: Lib, s: string, r: Option<real>)
    requires forall e :: Sentence(lib, s, e) ==> r == FiniteValue(ExprValue(lib, e))
    ensures SumLaws(lib, s, r)
  { }

  lemma ProductLawsHold(lib: Lib, s: string, r: Option<real>)
    requires forall e :: Sentence(lib, s, e) ==> r == FiniteValue(ExprValue(lib, e))
    ensures ProductLaws(lib, s, r)
  {
    forall t, op, f ensures ExprValue(lib, OneTerm(Product(t, op, f))) == TermValue(lib, Product(t, op, f)) { }
    forall t, f, x, y | Sentence(lib, s, OneTerm(Product(t, '*', f))) && TermIs(lib, t, x) && FactorIs(lib, f, y)
      ensures r == Some(x * y)
    {
      assert TermValue(lib, Product(t, '*', f)) == Some(Finite(RealTimes(x, y)));
    }
    forall t, f, x, y | Sentence(lib, s, OneTerm(Product(t, '/', f))) && TermIs(lib, t, x) && FactorIs(lib, f, y)
      ensures if y == 0.0 then r.None? else r.Some? && r.value * y == x
    {
      if y != 0.0 { Quotient(x, y); }
    }
    forall t, f | Sentence(lib, s, OneTerm(Product(t, '%', f))) && FactorIs(lib, f, 0.0) ensures r.None? {
      assert TermValue(lib, Product(t, '%', f)).None?;
    }
  }

  lemma SignLawsHold(lib: Lib, s: string, r: Option<real>)
    requires forall e :: Sentence(lib, s, e) ==> r == FiniteValue(ExprValue(lib, e))
    ensures SignLaws(lib, s, r)
  {
    forall f ensures ExprValue(lib, Alone(f)) == FactorValue(lib, f) { AloneValue(lib, f); }
  }

  lemma PowerLawsHold(lib: Lib, s: string, r: Option<real>)
    requires forall e :: Sentence(lib, s, e) ==> r == FiniteValue(ExprValue(lib, e))
    ensures PowerLaws(lib, s, r)
  {
    forall f ensures ExprValue(lib, Alone(f)) == FactorValue(lib, f) { AloneValue(lib, f); }
    forall b, f, x, y, neg | BaseIs(lib, b, x) && FactorIs(lib, f, y)
      ensures FactorValue(lib, Factor(neg, b, Power(f))) == Some(Signed(lib, neg, lib.pow(Finite(x), Finite(y))))
    {
      PowerValue(lib, neg, b, f, x, y);
    }
  }

  /**
   * Evaluation ends on every text. It succeeds exactly on the sentences of the grammar without a zero
   * divisor whose value is finite, and gives that value.
   */
  method TryEval(lib: Lib, s: string) returns (r: Option<real>)
    requires Reads(lib, s) && NulFree(s)
    ensures r.Some? <==> exists e :: Sentence(lib, s, e) && FiniteValue(ExprValue(lib, e)).Some?
    ensures forall e :: Sentence(lib, s, e) ==> r == FiniteValue(ExprValue(lib, e))
    ensures SumLaws(lib, s, r) && ProductLaws(lib, s, r) && SignLaws(lib, s, r) && PowerLaws(lib, s, r)
  {
    r := Evaluate(lib, s);
    SumLawsHold(lib, s, r);
    ProductLawsHold(lib, s, r);
    SignLawsHold(lib, s, r);
    PowerLawsHold(lib, s, r);
  }

  method Evaluate(lib: Lib, s: string) returns (r: Option<real>)
    requires Reads(lib, s) && NulFree(s)
    ensures r.Some? <==> exists e :: Sentence(lib, s, e) && FiniteValue(ExprValue(lib, e)).Some?
    ensures forall e :: Sentence(lib, s, e) ==> r == FiniteValue(ExprValue(lib, e))
  {
    var ctx := new EvalContext(lib, s);
    var v := ctx.EvalExpr();
    ctx.SkipSpaces();
    forall e | Sentence(lib, s, e) ensures ParseExpr(lib, s, 0) == Ok(e, |s|) { SentenceParses(lib, s, e); }
    if ctx.err || At(s, ctx.pos) != '\0' || !v.Finite? {
      return None;
    }
    ParsedIsSentence(lib, s);
    return Some(v.v);
  }

  // ---------------------------------------------------------------- printing

  predicate Delimiter(c: char) { MulOp(c) || AddOp(c) || c == '^' || c == ')' }

  /** `p` is the end of the text or a delimiter stands there. */
  predicate Stops(s: string, p: nat) { p == |s| || (p < |s| && Delimiter(s[p])) }

  /** The number reader reads back what `show` writes, wherever a delimiter follows. */
  ghost predicate Shows(lib: Lib, show: Num -> string, v: Num) {
    && |show(v)| > 0 && show(v)[0] !in {' ', '(', '-'}
    && forall s: string, i: nat :: Occurs(s, i, show(v)) && Stops(s, i + |show(v)|) ==> lib.strtod(s, i) == (v, i + |show(v)|)
  }

  function PrintBase(show: Num -> string, b: Base): string {
    match b
    case Number(v) => show(v)
    case Group(e) => "(" + PrintExpr(show, e) + ")"
  }

  function PrintFactor(show: Num -> string, f: Factor): string {
    Sign(f.neg) + PrintBase(show, f.base) + match f.exp case NoExp => "" case Power(g) => "^" + PrintFactor(show, g)
  }

  function PrintTerm(show: Num -> string, t: Term): string {
    match t
    case OneFactor(f) => PrintFactor(show, f)
    case Product(u, op, f) => PrintTerm(show, u) + [op] + PrintFactor(show, f)
  }

  function PrintExpr(show: Num -> string, e: Expr): string {
    match e
    case OneTerm(t) => PrintTerm(show, t)
    case Sum(d, op, t) => PrintExpr(show, d) + [op] + PrintTerm(show, t)
  }

  /** Operators in their places, and numbers that can be printed. */
  ghost predicate GoodBase(lib: Lib, show: Num -> string, b: Base) {
    match b
    case Number(v) => Shows(lib, show, v)
    case Group(e) => GoodExpr(lib, show, e)
  }

  ghost predicate GoodFactor(lib: Lib, show: Num -> string, f: Factor) {
    GoodBase(lib, show, f.base) && (f.exp.Power? ==> GoodFactor(lib, show, f.exp.f))
  }

  ghost predicate GoodTerm(lib: Lib, show: Num -> string, t: Term) {
    match t
    case OneFactor(f) => GoodFactor(lib, show, f)
    case Product(u, op, f) => MulOp(op) && GoodTerm(lib, show, u) && GoodFactor(lib, show, f)
  }

  ghost predicate GoodExpr(lib: Lib, show: Num -> string, e: Expr) {
    match e
    case OneTerm(t) => GoodTerm(lib, show, t)
    case Sum(d, op, t) => AddOp(op) && GoodExpr(lib, show, d) && GoodTerm(lib, show, t)
  }

  /** A printed operand: the string `w` at `i` with something that ends it behind. */
  ghost predicate Here(s: string, i: nat, w: string) { Occurs(s, i, w) && Stops(s, i + |w|) }

  lemma OneChar(s: string, i: nat, c: char)
    requires Occurs(s, i, [c]) && c != ' ' && c != '\0'
    ensures At(s, i) == c && Skip(s, i) == i && Next(s, i, c)
  {
    assert s[i] == s[i..i + 1][0];
  }

  lemma {:induction false} BasePrints(lib: Lib, show: Num -> string, s: string, i: nat, b: Base)
    requires GoodBase(lib, show, b) && Here(s, i, PrintBase(show, b))
    ensures BaseSpans(lib, s, i, i + |PrintBase(show, b)|, b)
    ensures At(s, i) != '-' && At(s, i) != ' ' && |PrintBase(show, b)| > 0
    decreases b, 0
  {
    match b
    case Number(v) => assert s[i] == s[i..i + |show(v)|][0];
    case Group(e) => GroupPrints(lib, show, s, i, e);
  }

  lemma {:induction false} GroupPrints(lib: Lib, show: Num -> string, s: string, i: nat, e: Expr)
    requires GoodExpr(lib, show, e) && Occurs(s, i, "(" + PrintExpr(show, e) + ")")
    ensures BaseSpans(lib, s, i, i + |PrintExpr(show, e)| + 2, Group(e)) && At(s, i) == '('
    decreases e, 2
  {
    var m := i + 1 + |PrintExpr(show, e)|;
    Pieces(s, i, "(" + PrintExpr(show, e), ")");
    Pieces(s, i, "(", PrintExpr(show, e));
    OneChar(s, i, '(');
    OneChar(s, m, ')');
    ExprPrints(lib, show, s, i + 1, e);
    assert ExprSpans(lib, s, Skip(s, i) + 1, m, e) && Next(s, m, ')');
  }

  function Sign(neg: bool): string { if neg then "-" else "" }

  lemma {:induction false} HeadPrints(lib: Lib, show: Num -> string, s: string, i: nat, neg: bool, b: Base,
                                      head: string)
    requires GoodBase(lib, show, b) && head == Sign(neg) + PrintBase(show, b) && Here(s, i, head)
    ensures i <= |s| && neg == Next(s, i, '-') && BaseSpans(lib, s, Start(s, i, neg), i + |head|, b)
    decreases b, 1
  {
    Pieces(s, i, Sign(neg), PrintBase(show, b));
    BasePrints(lib, show, s, i + |Sign(neg)|, b);
    if neg { OneChar(s, i, '-'); }
  }

  lemma {:induction false} FactorPrints(lib: Lib, show: Num -> string, s: string, i: nat, f: Factor)
    requires GoodFactor(lib, show, f) && Here(s, i, PrintFactor(show, f))
    ensures FactorSpans(lib, s, i, i + |PrintFactor(show, f)|, f)
    decreases f, 2
  {
    if f.exp.NoExp? {
      assert PrintFactor(show, f) == Sign(f.neg) + PrintBase(show, f.base);
      HeadPrints(lib, show, s, i, f.neg, f.base, PrintFactor(show, f));
    } else {
      PowerPrints(lib, show, s, i, f);
    }
  }

  lemma CaretBetween(s: string, i: nat, a: string, b: string)
    requires Here(s, i, a + ("^" + b))
    ensures var m := i + |a|;
            Here(s, i, a) && Next(s, m, '^') && Skip(s, m) == m && Here(s, m + 1, b)
  {
    Pieces(s, i, a, "^" + b);
    Pieces(s, i + |a|, "^", b);
    OneChar(s, i + |a|, '^');
  }

  lemma OperatorBetween(s: string, i: nat, a: string, op: char, b: string)
    requires Here(s, i, a + [op] + b) && (MulOp(op) || AddOp(op))
    ensures var m := i + |a|;
            Here(s, i, a) && Next(s, m, op) && Skip(s, m) == m && Here(s, m + 1, b)
  {
    Pieces(s, i, a + [op], b);
    Pieces(s, i, a, [op]);
    OneChar(s, i + |a|, op);
  }

  lemma {:induction false} PowerPrints(lib: Lib, show: Num -> string, s: string, i: nat, f: Factor)
    requires f.exp.Power? && GoodFactor(lib, show, f)
    requires Here(s, i, PrintFactor(show, f))
    ensures FactorSpans(lib, s, i, i + |PrintFactor(show, f)|, f)
    decreases f, 1
  {
    var head, tail := Sign(f.neg) + PrintBase(show, f.base), PrintFactor(show, f.exp.f);
    assert PrintFactor(show, f) == head + ("^" + tail);
    CaretBetween(s, i, head, tail);
    PowerSpans(lib, show, s, i, f, head, tail);
  }

  lemma {:induction false} PowerSpans(lib: Lib, show: Num -> string, s: string, i: nat, f: Factor, head: string,
                                      tail: string)
    requires f.exp.Power? && GoodBase(lib, show, f.base) && GoodFactor(lib, show, f.exp.f)
    requires head == Sign(f.neg) + PrintBase(show, f.base) && tail == PrintFactor(show, f.exp.f)
    requires Here(s, i, head) && Next(s, i + |head|, '^') && Skip(s, i + |head|) == i + |head| && Here(s, i + |head| + 1, tail)
    ensures FactorSpans(lib, s, i, i + |head| + 1 + |tail|, f)
    decreases f, 0
  {
    ExponentPrints(lib, show, s, i + |head|, f, tail);
    HeadPrints(lib, show, s, i, f.neg, f.base, head);
    PowerFrom(lib, s, i, i + |head|, i + |head| + 1 + |tail|, f);
  }

  lemma {:induction false} ExponentPrints(lib: Lib, show: Num -> string, s: string, m: nat, f: Factor, tail: string)
    requires f.exp.Power? && GoodFactor(lib, show, f.exp.f) && tail == PrintFactor(show, f.exp.f)
    requires Next(s, m, '^') && Skip(s, m) == m && Here(s, m + 1, tail)
    ensures CaretThen(lib, s, m, m + 1 + |tail|, f)
    decreases f.exp.f, 3
  {
    FactorPrints(lib, show, s, m + 1, f.exp.f);
  }

  ghost predicate CaretThen(lib: Lib, s: string, m: nat, j: nat, f: Factor) {
    f.exp.Power? && Next(s, m, '^') && FactorSpans(lib, s, Skip(s, m) + 1, j, f.exp.f)
  }

  lemma PowerFrom(lib: Lib, s: string, i: nat, m: nat, j: nat, f: Factor)
    requires i <= |s| && f.neg == Next(s, i, '-') && BaseSpans(lib, s, Start(s, i, f.neg), m, f.base) && CaretThen(lib, s, m, j, f)
    ensures FactorSpans(lib, s, i, j, f)
  { }

  lemma MakeProduct(lib: Lib, s: string, i: nat, m: nat, j: nat, u: Term, op: char, f: Factor)
    requires MulOp(op) && TermSpans(lib, s, i, m, u) && Next(s, m, op) && FactorSpans(lib, s, Skip(s, m) + 1, j, f)
    ensures TermSpans(lib, s, i, j, Product(u, op, f))
  { }

  lemma MakeSum(lib: Lib, s: string, i: nat, m: nat, j: nat, d: Expr, op: char, t: Term)
    requires AddOp(op) && ExprSpans(lib, s, i, m, d) && Next(s, m, op) && TermSpans(lib, s, Skip(s, m) + 1, j, t)
    ensures ExprSpans(lib, s, i, j, Sum(d, op, t))
  { }

  lemma {:induction false} TermPrints(lib: Lib, show: Num -> string, s: string, i: nat, t: Term)
    requires GoodTerm(lib, show, t) && Here(s, i, PrintTerm(show, t))
    ensures TermSpans(lib, s, i, i + |PrintTerm(show, t)|, t)
    decreases t, 2
  {
    if t.OneFactor? { FactorPrints(lib, show, s, i, t.f); } else { ProductPrints(lib, show, s, i, t); }
  }

  lemma {:induction false} ProductPrints(lib: Lib, show: Num -> string, s: string, i: nat, t: Term)
    requires t.Product? && GoodTerm(lib, show, t) && Here(s, i, PrintTerm(show, t))
    ensures TermSpans(lib, s, i, i + |PrintTerm(show, t)|, t)
    decreases t, 1
  {
    var a, b := PrintTerm(show, t.t), PrintFactor(show, t.f);
    assert PrintTerm(show, t) == a + [t.op] + b;
    OperatorBetween(s, i, a, t.op, b);
    ProductSpans(lib, show, s, i, t, a, b);
  }

  lemma {:induction false} ProductSpans(lib: Lib, show: Num -> string, s: string, i: nat, t: Term, a: string, b: string)
    requires t.Product? && MulOp(t.op) && GoodTerm(lib, show, t.t) && GoodFactor(lib, show, t.f)
    requires a == PrintTerm(show, t.t) && b == PrintFactor(show, t.f)
    requires Here(s, i, a) && Next(s, i + |a|, t.op) && Skip(s, i + |a|) == i + |a| && Here(s, i + |a| + 1, b)
    ensures TermSpans(lib, s, i, i + |a| + 1 + |b|, t)
    decreases t, 0
  {
    TermPrints(lib, show, s, i, t.t);
    FactorPrints(lib, show, s, i + |a| + 1, t.f);
    MakeProduct(lib, s, i, i + |a|, i + |a| + 1 + |b|, t.t, t.op, t.f);
  }

  lemma {:induction false} ExprPrints(lib: Lib, show: Num -> string, s: string, i: nat, e: Expr)
    requires GoodExpr(lib, show, e) && Here(s, i, PrintExpr(show, e))
    ensures ExprSpans(lib, s, i, i + |PrintExpr(show, e)|, e)
    decreases e, 1
  {
    if e.OneTerm? {
      TermPrints(lib, show, s, i, e.t);
    } else {
      var a, b := PrintExpr(show, e.e), PrintTerm(show, e.t);
      assert PrintExpr(show, e) == a + [e.op] + b;
      OperatorBetween(s, i, a, e.op, b);
      SumSpans(lib, show, s, i, e, a, b);
    }
  }

  lemma {:induction false} SumSpans(lib: Lib, show: Num -> string, s: string, i: nat, e: Expr, a: string, b: string)
    requires e.Sum? && AddOp(e.op) && GoodExpr(lib, show, e.e) && GoodTerm(lib, show, e.t)
    requires a == PrintExpr(show, e.e) && b == PrintTerm(show, e.t)
    requires Here(s, i, a) && Next(s, i + |a|, e.op) && Skip(s, i + |a|) == i + |a| && Here(s, i + |a| + 1, b)
    ensures ExprSpans(lib, s, i, i + |a| + 1 + |b|, e)
    decreases e, 0
  {
    ExprPrints(lib, show, s, i, e.e);
    TermPrints(lib, show, s, i + |a| + 1, e.t);
    MakeSum(lib, s, i, i + |a|, i + |a| + 1 + |b|, e.e, e.op, e.t);
  }

  /** Printing a tree and parsing the text gives the tree back, hence evaluating it gives its value. */
  lemma PrintParses(lib: Lib, show: Num -> string, e: Expr)
    requires GoodExpr(lib, show, e)
    ensures Sentence(lib, PrintExpr(show, e), e) && ParseExpr(lib, PrintExpr(show, e), 0) == Ok(e, |PrintExpr(show, e)|)
  {
    var s := PrintExpr(show, e);
    assert s[0..|s|] == s;
    ExprPrints(lib, show, s, 0, e);
    assert Skip(s, |s|) == |s|;
    SentenceParses(lib, s, e);
  }
}
