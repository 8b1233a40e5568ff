/** Constant folding as a single bottom-up rewrite: what it preserves, and exactly when it
    fails.  ExpressionPasses.dfy shows that the pass's repeated visits compute the same. */
module Folding {
  import opened Results
  import opened Doubles
  import opened Ast
  import opened Semantics

  type Folded = Result<Expr, PassError>

  // ---------- Folding one node whose operands are folded ----------

  /** NUMERIC_VALUE: the conditional's two branches convert to double. */
  function NumericValue(e: Expr): Double
    requires IsNumericLiteral(e)
  {
    if e.IntLit? then ToDouble(e.i) else e.d
  }

  function FoldBinary(fpu: FPU, op: BinaryOp, l: Expr, r: Expr): Folded {
    if !IsNumericLiteral(l) || !IsNumericLiteral(r) then Ok(Bin(op, l, r))
    else if l.DoubleLit? || r.DoubleLit? then
      if op.Modulus? then Ok(Bin(op, l, r))
      else Ok(DoubleLit(fpu.arith(op, NumericValue(l), NumericValue(r))))
    else
      match IntArith(op, l.i, r.i)
      case None => Err(if op.Division? then DivisionByZero else ModuloByZero)
      case Some(v) => if FitsInt64(IntResult(op, l.i, r.i)) then Ok(IntLit(v)) else Err(IntegerOverflow)
  }

  function FoldUnary(op: UnaryOp, s: Expr): Folded {
    match op
    case NumericPositive => Ok(if IsNumericLiteral(s) then s else Un(op, s))
    case NumericNegative =>
      if s.DoubleLit? then Ok(DoubleLit(DNegate(s.d)))
      else if s.IntLit? then (if FitsInt64(0 - s.i) then Ok(IntLit(0 - s.i)) else Err(IntegerOverflow))
      else Ok(Un(op, s))
    case BooleanNegation => Ok(if s.BoolLit? then BoolLit(!s.b) else Un(op, s))
  }

  function FoldComparison(op: ComparisonOp, l: Expr, r: Expr): Folded {
    if !IsLiteral(l) || !IsLiteral(r) then Ok(Cmp(op, l, r))
    else if IsArithmetic(op) then
      if !IsNumericLiteral(l) && !IsNumericLiteral(r) then Ok(Cmp(op, l, r))
      else if !IsNumericLiteral(l) || !IsNumericLiteral(r) then Err(InvalidCast)
      else Ok(BoolLit(CompareDoubles(op, NumericValue(l), NumericValue(r))))
    else if IsLogical(op) then
      if !l.BoolLit? && !r.BoolLit? then Ok(Cmp(op, l, r))
      else if !l.BoolLit? || !r.BoolLit? then Err(InvalidCast)
      else Ok(BoolLit(if op.Or? then l.b || r.b else l.b && r.b))
    else if IsNumericLiteral(l) && IsNumericLiteral(r) then
      Ok(BoolLit(CompareDoubles(op, NumericValue(l), NumericValue(r))))
    else if l.BoolLit? && r.BoolLit? then Ok(BoolLit((l.b == r.b) == op.Equal?))
    else if l.StrLit? && r.StrLit? then Ok(BoolLit((l.s == r.s) == op.Equal?))
    else Ok(Cmp(op, l, r))
  }

  // ---------- Folding a tree ----------

  function Fold(fpu: FPU, e: Expr): (r: Folded)
    ensures r.Ok? ==> Size(r.value) <= Size(e)
    decreases e
  {
    match e
    case Attr(b, n) => var b' :- Fold(fpu, b); Ok(Attr(b', n))
    case Call(m, args) => var args' :- FoldAll(fpu, args); Ok(Call(m, args'))
    case Bin(op, l, r) =>
      var l' :- Fold(fpu, l);
      var r' :- Fold(fpu, r);
      FoldBinary(fpu, op, l', r')
    case Un(op, s) => var s' :- Fold(fpu, s); FoldUnary(op, s')
    case Cmp(op, l, r) =>
      var l' :- Fold(fpu, l);
      var r' :- Fold(fpu, r);
      FoldComparison(op, l', r')
    case _ => Ok(e)
  }

  function FoldAll(fpu: FPU, es: seq<Expr>): (r: Result<seq<Expr>, PassError>)
    ensures r.Ok? ==> SizeAll(r.value) <= SizeAll(es) && |r.value| == |es|
    decreases es
  {
    if es == [] then Ok([])
    else
      var e' :- Fold(fpu, es[0]);
      var es' :- FoldAll(fpu, es[1..]);
      Ok([e'] + es')
  }

  // ---------- Folding twice is folding once ----------

  lemma {:induction false} FoldIdempotent(fpu: FPU, e: Expr)
    ensures Fold(fpu, e).Ok? ==> Fold(fpu, Fold(fpu, e).value) == Fold(fpu, e)
    decreases e
  {
    match e
    case Attr(b, _) => FoldIdempotent(fpu, b);
    case Call(_, args) => FoldAllIdempotent(fpu, args);
    case Bin(_, l, r) => FoldIdempotent(fpu, l); FoldIdempotent(fpu, r);
    case Un(_, s) => FoldIdempotent(fpu, s);
    case Cmp(_, l, r) => FoldIdempotent(fpu, l); FoldIdempotent(fpu, r);
    case _ =>
  }

  lemma {:induction false} FoldAllIdempotent(fpu: FPU, es: seq<Expr>)
    ensures FoldAll(fpu, es).Ok? ==> FoldAll(fpu, FoldAll(fpu, es).value) == FoldAll(fpu, es)
    decreases es
  {
    if es != [] {
      FoldIdempotent(fpu, es[0]);
      FoldAllIdempotent(fpu, es[1..]);
    }
  }

  // ---------- Folding preserves types ----------

  lemma FoldBinaryTypes(fpu: FPU, op: BinaryOp, l: Expr, r: Expr)
    requires NativelyTyped(Bin(op, l, r)) && FoldBinary(fpu, op, l, r).Ok?
    ensures var e' := FoldBinary(fpu, op, l, r).value;
            NativelyTyped(e') && TypeOf(e') == TypeOf(Bin(op, l, r)) && IsVariant(e') == IsVariant(Bin(op, l, r))
  {
    if l.IntLit? && r.IntLit? && op.Modulus? {
      RemainderFits(l.i, r.i);
    }
  }

  lemma FoldUnaryTypes(op: UnaryOp, s: Expr)
    requires NativelyTyped(Un(op, s)) && FoldUnary(op, s).Ok?
    ensures var e' := FoldUnary(op, s).value;
            NativelyTyped(e') && TypeOf(e') == TypeOf(Un(op, s)) && IsVariant(e') == IsVariant(Un(op, s))
  {
  }

  lemma FoldComparisonTypes(op: ComparisonOp, l: Expr, r: Expr)
    requires NativelyTyped(Cmp(op, l, r)) && FoldComparison(op, l, r).Ok?
    ensures var e' := FoldComparison(op, l, r).value;
            NativelyTyped(e') && TypeOf(e') == BooleanType && !IsVariant(e')
  {
  }

  lemma {:induction false} FoldPreservesTypes(fpu: FPU, e: Expr)
    requires NativelyTyped(e) && Fold(fpu, e).Ok?
    ensures var e' := Fold(fpu, e).value;
            NativelyTyped(e') && TypeOf(e') == TypeOf(e) && IsVariant(e') == IsVariant(e)
    decreases e
  {
    hide FoldBinary, FoldUnary, FoldComparison, FoldAll, NativelyTypedAll;
    match e
    case Attr(b, _) => FoldPreservesTypes(fpu, b);
    case Call(_, args) => FoldAllPreservesTypes(fpu, args);
    case Bin(op, l, r) =>
      FoldPreservesTypes(fpu, l);
      FoldPreservesTypes(fpu, r);
      FoldBinaryTypes(fpu, op, Fold(fpu, l).value, Fold(fpu, r).value);
    case Un(op, s) =>
      FoldPreservesTypes(fpu, s);
      FoldUnaryTypes(op, Fold(fpu, s).value);
    case Cmp(op, l, r) =>
      FoldPreservesTypes(fpu, l);
      FoldPreservesTypes(fpu, r);
      FoldComparisonTypes(op, Fold(fpu, l).value, Fold(fpu, r).value);
    case _ =>
  }

  lemma {:induction false} FoldAllPreservesTypes(fpu: FPU, es: seq<Expr>)
    requires NativelyTypedAll(es) && FoldAll(fpu, es).Ok?
    ensures NativelyTypedAll(FoldAll(fpu, es).value)
    decreases es
  {
    if es != [] {
      FoldPreservesTypes(fpu, es[0]);
      FoldAllPreservesTypes(fpu, es[1..]);
    }
  }

  /** Whether an expression is a variant survives folding even when it is not well typed. */
  lemma {:induction false} FoldPreservesVariance(fpu: FPU, e: Expr)
    requires Fold(fpu, e).Ok?
    ensures IsVariant(Fold(fpu, e).value) == IsVariant(e)
    decreases e
  {
    match e
    case Bin(_, l, r) => FoldPreservesVariance(fpu, l); FoldPreservesVariance(fpu, r);
    case Un(_, s) => FoldPreservesVariance(fpu, s);
    case _ =>
  }

  /** A well-typed integer expression is computed at compile time or not at all. */
  lemma {:induction false} IntegersFoldToLiterals(fpu: FPU, e: Expr)
    requires NativelyTyped(e) && TypeOf(e).IntegerType? && Fold(fpu, e).Ok?
    ensures Fold(fpu, e).value.IntLit? && FitsInt64(Fold(fpu, e).value.i)
    decreases e
  {
    match e
    case Bin(op, l, r) =>
      IntegersFoldToLiterals(fpu, l);
      IntegersFoldToLiterals(fpu, r);
      if op.Modulus? {
        RemainderFits(Fold(fpu, l).value.i, Fold(fpu, r).value.i);
      }
    case Un(_, s) => IntegersFoldToLiterals(fpu, s);
    case _ =>
  }

  /** The remainder of truncating division is smaller than the divisor and takes the sign of
      the dividend, so it always fits. */
  lemma RemainderFits(a: int, b: int)
    requires FitsInt64(a) && b != 0
    ensures FitsInt64(TruncMod(a, b))
    ensures Abs(TruncMod(a, b)) < Abs(b) && (TruncMod(a, b) == 0 || (TruncMod(a, b) < 0) == (a < 0))
  {
    hide TruncMod, TruncDiv;
    var r := RemainderOf(a, b);
  }

  // ---------- Integer arithmetic by its laws ----------

  /** Folding an operation on two integer literals. */
  function FoldInts(fpu: FPU, op: BinaryOp, a: int, b: int): (r: Folded)
    ensures r == FoldBinary(fpu, op, IntLit(a), IntLit(b))
  {
    assert Fold(fpu, IntLit(a)) == Ok(IntLit(a)) && Fold(fpu, IntLit(b)) == Ok(IntLit(b));
    Fold(fpu, Bin(op, IntLit(a), IntLit(b)))
  }

  /** Adding zero changes nothing, adding one more gives one more, and subtracting undoes
      adding, both ways; only sums beyond 64 bits do not fold. */
  lemma SumLaws(fpu: FPU, a: int, b: int)
    requires FitsInt64(a) && FitsInt64(b)
    ensures FoldInts(fpu, Addition, a, 0) == Ok(IntLit(a))
    ensures var s, t := FoldInts(fpu, Addition, a, b), FoldInts(fpu, Addition, a, b + 1);
            s.Ok? && t.Ok? ==> s.value.IntLit? && t.value == IntLit(s.value.i + 1)
    ensures var s := FoldInts(fpu, Addition, a, b);
            s.Ok? ==> s.value.IntLit? && FoldInts(fpu, Subtraction, s.value.i, b) == Ok(IntLit(a))
    ensures var d := FoldInts(fpu, Subtraction, a, b);
            d.Ok? ==> d.value.IntLit? && FoldInts(fpu, Addition, d.value.i, b) == Ok(IntLit(a))
    ensures FoldInts(fpu, Addition, a, b) == Err(IntegerOverflow) <==> !FitsInt64(a + b)
    ensures FoldInts(fpu, Subtraction, a, b) == Err(IntegerOverflow) <==> !FitsInt64(a - b)
  {
  }

  /** Nothing times gives zero, once more gives one summand more. */
  lemma ProductLaws(fpu: FPU, a: int, b: int)
    requires FitsInt64(a) && FitsInt64(b)
    ensures FoldInts(fpu, Multiplication, a, 0) == Ok(IntLit(0))
    ensures var p, q := FoldInts(fpu, Multiplication, a, b), FoldInts(fpu, Multiplication, a, b + 1);
            p.Ok? && q.Ok? ==> p.value.IntLit? && q.value == IntLit(p.value.i + a)
    ensures FoldInts(fpu, Multiplication, a, b) == Err(IntegerOverflow) <==> !FitsInt64(a * b)
  {
    assert a * (b + 1) == a * b + a;
  }

  /** The dividend is quotient times divisor plus a remainder that is smaller than the divisor
      and has the dividend's sign; division by zero and remainder by zero are told apart. */
  lemma QuotientLaws(fpu: FPU, a: int, b: int)
    requires FitsInt64(a) && FitsInt64(b)
    ensures var q, r := FoldInts(fpu, Division, a, b), FoldInts(fpu, Modulus, a, b);
            && (b == 0 ==> q == Err(DivisionByZero) && r == Err(ModuloByZero))
            && (b != 0 ==> q.Ok? == r.Ok?)
            && (b != 0 && q.Err? ==> q == r == Err(IntegerOverflow) && a == INT64_MIN && b == -1)
            && (q.Ok? ==>
                  && q.value.IntLit? && r.value.IntLit? && a == q.value.i * b + r.value.i
                  && Abs(r.value.i) < Abs(b) && (r.value.i == 0 || (r.value.i < 0) == (a < 0)))
  {
    if b != 0 {
      RemainderFits(a, b);
      QuotientFits(a, b);
      hide TruncDiv;
    }
  }

  /** Only the least integer over minus one has a quotient beyond 64 bits. */
  lemma QuotientFits(a: int, b: int)
    requires FitsInt64(a) && b != 0
    ensures FitsInt64(TruncDiv(a, b)) || (a == INT64_MIN && b == -1)
  {
    var n: nat, u: nat := Abs(a), Abs(b);
    if u >= 2 {
      assert n / u <= n / 2 by { DivisionShrinks(n, u); }
    }
  }

  lemma DivisionShrinks(n: nat, u: nat)
    requires u >= 2
    ensures n / u <= n / 2
  {
    var q := n / u;
    assert q * u <= n;
    assert q * 2 <= q * u by { assert q * (u - 2) >= 0; }
  }

  lemma Magnitudes(a: int, b: int) returns (n: nat, u: nat)
    requires b != 0
    ensures n == Abs(a) && u == Abs(b) && u > 0
  {
    n, u := Abs(a), Abs(b);
  }

  lemma RemainderOf(a: int, b: int) returns (r: nat)
    requires b != 0
    ensures TruncMod(a, b) == (if a < 0 then 0 - r else r) && r < Abs(b) && r <= Abs(a)
  {
    hide TruncMod, TruncDiv, Abs;
    var n, u := Magnitudes(a, b);
    r := n % u;
    RemainderParts(a, b, n / u, r);
  }

  lemma RemainderParts(a: int, b: int, q: nat, r: nat)
    requires b != 0 && q == Abs(a) / Abs(b) && r == Abs(a) % Abs(b)
    ensures TruncMod(a, b) == (if a < 0 then 0 - r else r) && r < Abs(b) && r <= Abs(a)
  {
    var n: nat := Abs(b);
    DivisionParts(Abs(a), n);
    NegatedProduct(q, b);
  }

  lemma NegatedProduct(q: int, b: int)
    ensures (0 - q) * b == 0 - q * b && q * (0 - b) == 0 - q * b
  {
  }

  // ---------- When folding fails ----------

  /** An expression and all expressions inside it. */
  function Subterms(e: Expr): set<Expr> {
    {e} + match e
          case Attr(b, _) => Subterms(b)
          case Call(_, args) => SubtermsAll(args)
          case Bin(_, l, r) => Subterms(l) + Subterms(r)
          case Un(_, s) => Subterms(s)
          case Cmp(_, l, r) => Subterms(l) + Subterms(r)
          case _ => {}
  }

  function SubtermsAll(es: seq<Expr>): set<Expr> {
    if es == [] then {} else Subterms(es[0]) + SubtermsAll(es[1..])
  }

  predicate FoldsToInt(fpu: FPU, e: Expr) {
    Fold(fpu, e).Ok? && Fold(fpu, e).value.IntLit?
  }

  /** `/` or `%` of two integers known at compile time, the second of which is zero. */
  predicate DividesByZero(fpu: FPU, e: Expr) {
    && e.Bin?
    && (e.bop.Division? || e.bop.Modulus?)
    && FoldsToInt(fpu, e.left)
    && Fold(fpu, e.right) == Ok(IntLit(0))
  }

  /** Integer arithmetic known at compile time whose result does not fit in 64 bits. */
  predicate Overflows(fpu: FPU, e: Expr) {
    || (&& e.Bin?
        && FoldsToInt(fpu, e.left)
        && FoldsToInt(fpu, e.right)
        && !DividesByZero(fpu, e)
        && !FitsInt64(IntResult(e.bop, Fold(fpu, e.left).value.i, Fold(fpu, e.right).value.i)))
    || (&& e.Un?
        && e.uop.NumericNegative?
        && FoldsToInt(fpu, e.sub)
        && !FitsInt64(0 - Fold(fpu, e.sub).value.i))
  }

  /** A comparison of two literals of which only one has the kind the operator wants: the
      guards of the pass join their two tests with `&&`, so it casts the other one too. */
  predicate MixesLiteralKinds(fpu: FPU, e: Expr) {
    && e.Cmp?
    && Fold(fpu, e.left).Ok? && IsLiteral(Fold(fpu, e.left).value)
    && Fold(fpu, e.right).Ok? && IsLiteral(Fold(fpu, e.right).value)
    && var l, r := Fold(fpu, e.left).value, Fold(fpu, e.right).value;
       || (IsArithmetic(e.cop) && IsNumericLiteral(l) != IsNumericLiteral(r))
       || (IsLogical(e.cop) && l.BoolLit? != r.BoolLit?)
  }

  predicate Blocks(fpu: FPU, e: Expr) {
    DividesByZero(fpu, e) || Overflows(fpu, e) || MixesLiteralKinds(fpu, e)
  }

  lemma BlockedBinary(fpu: FPU, op: BinaryOp, l: Expr, r: Expr)
    ensures Blocks(fpu, Bin(op, l, r)) <==> Fold(fpu, l).Ok? && Fold(fpu, r).Ok? && Fold(fpu, Bin(op, l, r)).Err?
    ensures Fold(fpu, l).Err? || Fold(fpu, r).Err? ==> Fold(fpu, Bin(op, l, r)).Err?
    ensures Subterms(Bin(op, l, r)) == {Bin(op, l, r)} + Subterms(l) + Subterms(r)
  {
  }

  lemma BlockedUnary(fpu: FPU, op: UnaryOp, s: Expr)
    ensures Blocks(fpu, Un(op, s)) <==> Fold(fpu, s).Ok? && Fold(fpu, Un(op, s)).Err?
    ensures Fold(fpu, s).Err? ==> Fold(fpu, Un(op, s)).Err?
    ensures Subterms(Un(op, s)) == {Un(op, s)} + Subterms(s)
  {
  }

  lemma BlockedComparison(fpu: FPU, op: ComparisonOp, l: Expr, r: Expr)
    ensures Blocks(fpu, Cmp(op, l, r)) <==> Fold(fpu, l).Ok? && Fold(fpu, r).Ok? && Fold(fpu, Cmp(op, l, r)).Err?
    ensures Fold(fpu, l).Err? || Fold(fpu, r).Err? ==> Fold(fpu, Cmp(op, l, r)).Err?
    ensures Subterms(Cmp(op, l, r)) == {Cmp(op, l, r)} + Subterms(l) + Subterms(r)
  {
  }

  lemma BlockedElsewhere(fpu: FPU, e: Expr)
    requires !e.Bin? && !e.Un? && !e.Cmp?
    ensures !Blocks(fpu, e)
    ensures Fold(fpu, e).Err? ==> e.Attr? || e.Call?
    ensures e.Attr? ==> Fold(fpu, e).Err? == Fold(fpu, e.base).Err? && Subterms(e) == {e} + Subterms(e.base)
    ensures e.Call? ==> Fold(fpu, e).Err? == FoldAll(fpu, e.args).Err? && Subterms(e) == {e} + SubtermsAll(e.args)
    ensures !e.Attr? && !e.Call? ==> Subterms(e) == {e}
  {
  }

  /** Folding fails exactly when some subexpression, with its operands folded, divides by
      zero, overflows, or mixes literal kinds. */
  lemma {:induction false} FoldFailsExactly(fpu: FPU, e: Expr)
    ensures Fold(fpu, e).Err? <==> exists n :: n in Subterms(e) && Blocks(fpu, n)
    decreases e
  {
    hide Fold, FoldAll, Blocks, Subterms, SubtermsAll;
    match e
    case Attr(b, _) => BlockedElsewhere(fpu, e); FoldFailsExactly(fpu, b);
    case Call(_, args) => BlockedElsewhere(fpu, e); FoldAllFailsExactly(fpu, args);
    case Bin(op, l, r) =>
      FoldFailsExactly(fpu, l);
      FoldFailsExactly(fpu, r);
      BlockedBinary(fpu, op, l, r);
    case Un(op, s) =>
      FoldFailsExactly(fpu, s);
      BlockedUnary(fpu, op, s);
    case Cmp(op, l, r) =>
      FoldFailsExactly(fpu, l);
      FoldFailsExactly(fpu, r);
      BlockedComparison(fpu, op, l, r);
    case _ => BlockedElsewhere(fpu, e);
  }

  lemma {:induction false} FoldAllFailsExactly(fpu: FPU, es: seq<Expr>)
    ensures FoldAll(fpu, es).Err? <==> exists n :: n in SubtermsAll(es) && Blocks(fpu, n)
    decreases es
  {
    if es != [] {
      FoldFailsExactly(fpu, es[0]);
      FoldAllFailsExactly(fpu, es[1..]);
    }
  }

  /** The parser's typing rules out the invalid cast, so of what the C++ code defines only
      a division by zero is left. */
  lemma {:induction false} TypedFoldErrors(fpu: FPU, e: Expr)
    requires NativelyTyped(e) && Fold(fpu, e).Err?
    ensures var err := Fold(fpu, e).error;
            err.DivisionByZero? || err.ModuloByZero? || err.IntegerOverflow?
    decreases e
  {
    match e
    case Attr(b, _) => TypedFoldErrors(fpu, b);
    case Call(_, args) => TypedFoldAllErrors(fpu, args);
    case Bin(_, l, r) =>
      if Fold(fpu, l).Err? { TypedFoldErrors(fpu, l); }
      else if Fold(fpu, r).Err? { TypedFoldErrors(fpu, r); }
    case Un(_, s) =>
      if Fold(fpu, s).Err? { TypedFoldErrors(fpu, s); }
    case Cmp(_, l, r) =>
      if Fold(fpu, l).Err? { TypedFoldErrors(fpu, l); }
      else if Fold(fpu, r).Err? { TypedFoldErrors(fpu, r); }
      else {
        FoldPreservesTypes(fpu, l);
        FoldPreservesTypes(fpu, r);
      }
    case _ =>
  }

  lemma {:induction false} TypedFoldAllErrors(fpu: FPU, es: seq<Expr>)
    requires NativelyTypedAll(es) && FoldAll(fpu, es).Err?
    ensures var err := FoldAll(fpu, es).error;
            err.DivisionByZero? || err.ModuloByZero? || err.IntegerOverflow?
    decreases es
  {
    if Fold(fpu, es[0]).Err? {
      TypedFoldErrors(fpu, es[0]);
    } else {
      TypedFoldAllErrors(fpu, es[1..]);
    }
  }

  // ---------- Comparing integers through doubles ----------

  /** Comparing the rounded integers answers as comparing the integers.  The two differ
      only on distinct integers that round to one double, and then only in one order. */
  predicate ComparedAsIntegers(op: ComparisonOp, a: int, b: int) {
    || a == b
    || RoundInt(a) != RoundInt(b)
    || ((op.GreaterThan? || op.LessOrEqual?) && a < b)
    || ((op.LessThan? || op.GreaterOrEqual?) && a > b)
  }

  lemma RoundedComparison(op: ComparisonOp, a: int, b: int)
    requires !IsLogical(op)
    ensures CompareDoubles(op, ToDouble(a), ToDouble(b)) == CompareInts(op, a, b) <==> ComparedAsIntegers(op, a, b)
  {
    if a <= b {
      RoundIntMonotone(a, b);
    } else {
      RoundIntMonotone(b, a);
    }
  }

  /** One operand below 2^53 in magnitude is enough, whatever the other one is; so are two
      of magnitude at most 2^53. */
  lemma SmallIntegersCompareExactly(op: ComparisonOp, a: int, b: int)
    requires Abs(a) < TWO_TO_53 || Abs(b) < TWO_TO_53 || (Abs(a) <= TWO_TO_53 && Abs(b) <= TWO_TO_53)
    ensures ComparedAsIntegers(op, a, b)
  {
    if Abs(a) <= TWO_TO_53 { SmallIntegersAreDoubles(a); } else { LargeIntegersStayLarge(a); }
    if Abs(b) <= TWO_TO_53 { SmallIntegersAreDoubles(b); } else { LargeIntegersStayLarge(b); }
  }

  /** The first integers for which folding `==` gives the wrong answer. */
  lemma RoundedComparisonCanFail()
    ensures CompareDoubles(Equal, ToDouble(TWO_TO_53), ToDouble(TWO_TO_53 + 1))
    ensures !CompareInts(Equal, TWO_TO_53, TWO_TO_53 + 1)
  {
    SmallIntegersAreDoubles(TWO_TO_53);
    assert Ulp((TWO_TO_53 + 1) / 2) == 1;
    assert Ulp(TWO_TO_53 + 1) == 2;
  }

  // ---------- Folding preserves values ----------

  /** Every comparison of the tree that folding decides between two integers is decided as
      an integer comparison would be. */
  predicate ComparesExactly(fpu: FPU, e: Expr) {
    match e
    case Attr(b, _) => ComparesExactly(fpu, b)
    case Call(_, args) => ComparesExactlyAll(fpu, args)
    case Bin(_, l, r) => ComparesExactly(fpu, l) && ComparesExactly(fpu, r)
    case Un(_, s) => ComparesExactly(fpu, s)
    case Cmp(op, l, r) =>
      && ComparesExactly(fpu, l)
      && ComparesExactly(fpu, r)
      && (FoldsToInt(fpu, l) && FoldsToInt(fpu, r) ==>
            ComparedAsIntegers(op, Fold(fpu, l).value.i, Fold(fpu, r).value.i))
    case _ => true
  }

  predicate ComparesExactlyAll(fpu: FPU, es: seq<Expr>) {
    if es == [] then true else ComparesExactly(fpu, es[0]) && ComparesExactlyAll(fpu, es[1..])
  }

  function LiteralValue(e: Expr): Value
    requires IsLiteral(e)
  {
    match e
    case DoubleLit(d) => Dbl(d)
    case IntLit(i) => Int(i)
    case BoolLit(b) => Bool(b)
    case StrLit(s) => Str(s)
  }

  lemma FoldComparisonSound(op: ComparisonOp, l: Expr, r: Expr)
    requires IsLiteral(l) && IsLiteral(r) && FoldComparison(op, l, r).Ok?
    requires l.IntLit? && r.IntLit? ==> ComparedAsIntegers(op, l.i, r.i)
    ensures var e' := FoldComparison(op, l, r).value;
            || e' == Cmp(op, l, r)
            || (e'.BoolLit? && NativeCompare(op, LiteralValue(l), LiteralValue(r)) == Some(e'.b))
  {
    if l.IntLit? && r.IntLit? && !IsLogical(op) {
      RoundedComparison(op, l.i, r.i);
    }
  }

  lemma BinaryNodeSound(h: Host, op: BinaryOp, l: Expr, r: Expr, env: Env)
    requires FoldBinary(h.fpu, op, l, r).Ok?
    ensures Eval(h, FoldBinary(h.fpu, op, l, r).value, env) == Eval(h, Bin(op, l, r), env)
  {
    if IsNumericLiteral(l) && IsNumericLiteral(r) {
      assert Eval(h, l, env) == Some(LiteralValue(l)) && Eval(h, r, env) == Some(LiteralValue(r));
      assert !IsVariant(Bin(op, l, r));
    }
  }

  lemma UnaryNodeSound(h: Host, op: UnaryOp, s: Expr, env: Env)
    requires FoldUnary(op, s).Ok?
    ensures Eval(h, FoldUnary(op, s).value, env) == Eval(h, Un(op, s), env)
  {
  }

  lemma ComparisonNodeSound(h: Host, op: ComparisonOp, l: Expr, r: Expr, env: Env)
    requires FoldComparison(op, l, r).Ok?
    requires l.IntLit? && r.IntLit? ==> ComparedAsIntegers(op, l.i, r.i)
    ensures Eval(h, FoldComparison(op, l, r).value, env) == Eval(h, Cmp(op, l, r), env)
  {
    if IsLiteral(l) && IsLiteral(r) {
      FoldComparisonSound(op, l, r);
      assert Eval(h, l, env) == Some(LiteralValue(l)) && Eval(h, r, env) == Some(LiteralValue(r));
      hide FoldComparison, NativeCompare;
      assert !IsVariant(l) && !IsVariant(r);
    }
  }

  /** Folding preserves the value of every expression in every environment, whatever the
      run-time library computes. */
  lemma {:induction false} FoldSound(h: Host, e: Expr, env: Env)
    requires Fold(h.fpu, e).Ok? && ComparesExactly(h.fpu, e)
    ensures Eval(h, Fold(h.fpu, e).value, env) == Eval(h, e, env)
    decreases e
  {
    match e
    case Attr(b, _) => FoldSound(h, b, env);
    case Call(_, args) => FoldAllSound(h, args, env);
    case Bin(op, l, r) =>
      FoldSound(h, l, env);
      FoldSound(h, r, env);
      FoldPreservesVariance(h.fpu, l);
      FoldPreservesVariance(h.fpu, r);
      var l', r' := Fold(h.fpu, l).value, Fold(h.fpu, r).value;
      BinaryNodeSound(h, op, l', r', env);
      assert Eval(h, Bin(op, l', r'), env) == Eval(h, e, env);
    case Un(op, s) =>
      FoldSound(h, s, env);
      FoldPreservesVariance(h.fpu, s);
      UnaryNodeSound(h, op, Fold(h.fpu, s).value, env);
      assert Eval(h, Un(op, Fold(h.fpu, s).value), env) == Eval(h, e, env);
    case Cmp(op, l, r) =>
      FoldSound(h, l, env);
      FoldSound(h, r, env);
      FoldPreservesVariance(h.fpu, l);
      FoldPreservesVariance(h.fpu, r);
      var l', r' := Fold(h.fpu, l).value, Fold(h.fpu, r).value;
      ComparisonNodeSound(h, op, l', r', env);
      assert Eval(h, Cmp(op, l', r'), env) == Eval(h, e, env);
    case _ =>
  }

  lemma {:induction false} FoldAllSound(h: Host, es: seq<Expr>, env: Env)
    requires FoldAll(h.fpu, es).Ok? && ComparesExactlyAll(h.fpu, es)
    ensures EvalAll(h, FoldAll(h.fpu, es).value, env) == EvalAll(h, es, env)
    decreases es
  {
    if es != [] {
      FoldSound(h, es[0], env);
      FoldAllSound(h, es[1..], env);
    }
  }
}
