/** Exactly which templates the backend compiles. */
module LoweringAccepts {
  import opened Results
  import opened Ast
  import opened Ir
  import opened Lowering
  import opened LoweringFrames
  import opened LoweringRuns
  import opened LoweringStatements
  import opened LoweringCorrect

  // ---------- Expressions ----------

  predicate IsIntegerType(t: Type) {
    t.I1? || t.I64?
  }

  predicate IsConvertible(t: Type) {
    IsIntegerType(t) || t.DoubleTy?
  }

  /** The type of the operand an expression compiles to. */
  function CompiledType(e: Expr): Type {
    match e
    case Var(_) => VariantPtr
    case Attr(_, _) => VariantPtr
    case Call(_, _) => VariantPtr
    case DoubleLit(_) => DoubleTy
    case IntLit(_) => I64
    case BoolLit(_) => I1
    case StrLit(_) => StringPtr
    case Bin(_, l, r) =>
      if IsVariant(l) || IsVariant(r) then VariantPtr
      else if IsIntegerType(CompiledType(l)) && IsIntegerType(CompiledType(r)) then CompiledType(l)
      else DoubleTy
    case Un(_, s) => CompiledType(s)
    case Cmp(op, l, r) =>
      if !IsVariant(l) && !IsVariant(r) && IsIntegerType(CompiledType(l)) && IsIntegerType(CompiledType(r))
        && IsLogical(op)
      then CompiledType(l) else I1
  }

  /** Two integers must have one type, anything else must convert to double. */
  predicate Combines(l: Type, r: Type) {
    if IsIntegerType(l) && IsIntegerType(r) then l == r else IsConvertible(l) && IsConvertible(r)
  }

  predicate Accepted(e: Expr) {
    match e
    case Attr(b, _) => Accepted(b) && IsVariant(b)
    case Call(_, args) => AcceptedAll(args)
    case Bin(_, l, r) =>
      Accepted(l) && Accepted(r) && (IsVariant(l) || IsVariant(r) || Combines(CompiledType(l), CompiledType(r)))
    case Un(op, s) => Accepted(s) && (IsVariant(s) || op.NumericPositive? || IsIntegerType(CompiledType(s)))
    case Cmp(op, l, r) =>
      && Accepted(l) && Accepted(r)
      && (IsVariant(l) || IsVariant(r)
          || (&& Combines(CompiledType(l), CompiledType(r))
              && (IsLogical(op) ==> IsIntegerType(CompiledType(l)) && IsIntegerType(CompiledType(r)))))
    case _ => true
  }

  predicate AcceptedAll(es: seq<Expr>) {
    if es == [] then true else Accepted(es[0]) && AcceptedAll(es[1..])
  }

  /** An expression compiles exactly when it is accepted, to an operand of the given type that
      is new unless it is an overridden variable. */
  ghost predicate ExprDecided(b: Builder, e: Expr) {
    && (LowerExpr(b, e).Ok? <==> Accepted(e))
    && (LowerExpr(b, e).Ok? ==>
          var c := LowerExpr(b, e).value;
          && WellFormed(c.b) && TypeOfOperand(c.v) == CompiledType(e) && b.next <= c.b.next
          && (CompiledType(e).VariantPtr? <==> IsVariant(e)))
  }

  lemma {:induction false} ExprAccepted(b: Builder, e: Expr)
    requires WellFormed(b)
    ensures ExprDecided(b, e)
    decreases e, 1
  {
    match e
    case Var(x) => VarAccepted(b, x);
    case Attr(base, n) => AttrAccepted(b, base, n);
    case Call(f, args) => CallAccepted(b, f, args);
    case Bin(op, l, r) => BinAccepted(b, op, l, r);
    case Un(op, s) => UnAccepted(b, op, s);
    case Cmp(op, l, r) => CmpAccepted(b, op, l, r);
    case _ =>
  }

  lemma VarAccepted(b: Builder, x: string)
    requires WellFormed(b)
    ensures ExprDecided(b, Var(x))
  {
    assert LowerExpr(b, Var(x)).Ok?;
    hide LowerExpr, WellFormed;
    LoweredIsWellFormed(b, Var(x));
    LowerExprGrown(b, Var(x), {}, false);
    VariantType(b, LowerExpr(b, Var(x)).value, Var(x));
  }

  /** What lowering any expression guarantees, whatever it computes. */
  lemma VariantType(b: Builder, c: Computed, e: Expr)
    requires ExprGrown(b, c, e, {}, false)
    ensures b.next <= c.b.next && (TypeOfOperand(c.v).VariantPtr? <==> IsVariant(e))
    ensures Grown(b, c.b, OwedFor(c.v), false)
  {
    hide Owes, WellFormed, IsVariant;
  }

  lemma Balances(b: Builder, e: Expr)
    ensures Balanced(b, e, {}, false)
  {
  }

  lemma AttrAccepted(b: Builder, base: Expr, n: string)
    requires WellFormed(b)
    ensures ExprDecided(b, Attr(base, n))
    decreases Attr(base, n), 0
  {
    ExprAccepted(b, base);
    Balances(b, base);
    hide LowerExpr, WellFormed, Accepted;
    if LowerExpr(b, base).Ok? {
      var c := LowerExpr(b, base).value;
      LowerExprGrown(b, base, {}, false);
      VariantType(b, c, base);
      AttributeUnfolds(b, base, n);
      if IsVariantOperand(c.v) {
        OwedForVariant(c.v);
        AttributeLookupGrown(b, c.b, multiset{}, false, n, c.v);
        GrownIsWellFormed(b, AttributeLookup(c.b, n, c.v).value.b,
                          multiset{} + multiset{AttributeLookup(c.b, n, c.v).value.v}, false);
        LowerExprGrown(b, Attr(base, n), {}, false);
        VariantType(b, LowerExpr(b, Attr(base, n)).value, Attr(base, n));
      } else {
        NonVariantUncounted(b, c.b, OwedFor(c.v), false, c.v);
      }
    } else {
      AttributeFails(b, base, n);
    }
    AttributeAccepted(base, n);
  }

  lemma AttributeFails(b: Builder, base: Expr, n: string)
    requires LowerExpr(b, base).Err?
    ensures LowerExpr(b, Attr(base, n)).Err?
  {
  }

  lemma AttributeAccepted(base: Expr, n: string)
    ensures Accepted(Attr(base, n)) <==> Accepted(base) && IsVariant(base)
  {
  }

  ghost predicate ExprsDecided(b: Builder, es: seq<Expr>) {
    && (LowerExprs(b, es).Ok? <==> AcceptedAll(es))
    && (LowerExprs(b, es).Ok? ==>
          var c := LowerExprs(b, es).value; Grown(b, c.b, OwedForAll(c.vs), false) && b.next <= c.b.next)
  }

  lemma {:induction false} ExprsAccepted(b: Builder, es: seq<Expr>)
    requires WellFormed(b)
    ensures ExprsDecided(b, es)
    decreases es, 0
  {
    if es == [] {
      GrownSelf(b, false);
    } else {
      ExprAccepted(b, es[0]);
      hide LowerExpr, WellFormed, Accepted, Grown, ReleasableArgs;
      if LowerExpr(b, es[0]).Ok? {
        var c := LowerExpr(b, es[0]).value;
        ExprsAccepted(c.b, es[1..]);
        if LowerExprs(b, es).Ok? {
          LowerExprsGrown(b, es, {}, false);
        }
      }
    }
  }

  lemma CallAccepted(b: Builder, f: string, args: seq<Expr>)
    requires WellFormed(b)
    ensures ExprDecided(b, Call(f, args))
    decreases Call(f, args), 0
  {
    ExprsAccepted(b, args);
    Balances(b, Call(f, args));
    hide LowerExprs, WellFormed, AcceptedAll, Grown, MethodCall;
    if LowerExprs(b, args).Ok? {
      var c := LowerExprs(b, args).value;
      assert multiset{} + OwedForAll(c.vs) == OwedForAll(c.vs);
      MethodCallGrown(b, c.b, multiset{}, false, f, c.vs);
      LoweredIsWellFormed(b, Call(f, args));
      LowerExprGrown(b, Call(f, args), {}, false);
      VariantType(b, LowerExpr(b, Call(f, args)).value, Call(f, args));
    }
  }

  lemma UnAccepted(b: Builder, op: UnaryOp, s: Expr)
    requires WellFormed(b)
    ensures ExprDecided(b, Un(op, s))
    decreases Un(op, s), 0
  {
    ExprAccepted(b, s);
    if LowerExpr(b, s).Ok? {
      UnDecided(b, op, s);
    }
  }

  lemma UnLowers(b: Builder, op: UnaryOp, s: Expr, c: Computed)
    requires LowerExpr(b, s) == Ok(c)
    ensures LowerExpr(b, Un(op, s)) == UnResult(c.b, op, c.v)
  {
    hide VariantUnary, NativeUnaryOp, IsVariantOperand;
  }

  lemma UnTypes(op: UnaryOp, s: Expr)
    ensures Accepted(Un(op, s)) <==>
                Accepted(s) && (IsVariant(s) || op.NumericPositive? || IsIntegerType(CompiledType(s)))
    ensures CompiledType(Un(op, s)) == CompiledType(s) && IsVariant(Un(op, s)) == IsVariant(s)
  {
    hide IsIntegerType;
  }

  lemma NativeUnaryDecided(b: Builder, op: UnaryOp, v: Operand)
    ensures NativeUnaryOp(b, op, v).Ok? <==> op.NumericPositive? || IsIntegerType(TypeOfOperand(v))
    ensures NativeUnaryOp(b, op, v).Ok? ==> TypeOfOperand(NativeUnaryOp(b, op, v).value.v) == TypeOfOperand(v)
  {
  }

  lemma VariantUnaryDecided(b: Builder, op: UnaryOp, c: Computed)
    requires WellFormed(b) && Grown(b, c.b, OwedFor(c.v), false) && IsVariantOperand(c.v)
    ensures VariantUnary(c.b, op, c.v).Ok? && TypeOfOperand(VariantUnary(c.b, op, c.v).value.v) == TypeOfOperand(c.v)
  {
    hide WellFormed, Grown, VariantUnary;
    OwedForVariant(c.v);
    VariantUnaryGrown(b, c.b, multiset{}, false, op, c.v);
  }

  lemma UnDecided(b: Builder, op: UnaryOp, s: Expr)
    requires WellFormed(b) && LowerExpr(b, s).Ok? && ExprDecided(b, s)
    ensures ExprDecided(b, Un(op, s))
  {
    hide *;
    var c := LowerExpr(b, s).value;
    Balances(b, s);
    ExprDecidedParts(b, s);
    UnLowers(b, op, s, c);
    UnIsVariant(c.b, op, c.v);
    UnTypes(op, s);
    LowerExprGrown(b, s, {}, false);
    VariantType(b, c, s);
    if IsVariantOperand(c.v) {
      VariantUnaryDecided(b, op, c);
      DecidedOk(b, Un(op, s));
    } else {
      NativeUnaryDecided(c.b, op, c.v);
      if LowerExpr(b, Un(op, s)).Ok? {
        DecidedOk(b, Un(op, s));
      } else {
        DecidedErr(b, Un(op, s));
      }
    }
  }

  lemma BinAccepted(b: Builder, op: BinaryOp, l: Expr, r: Expr)
    requires WellFormed(b)
    ensures ExprDecided(b, Bin(op, l, r))
    decreases Bin(op, l, r), 0
  {
    hide *;
    BinTypes(op, l, r);
    PairFails(b, op, Equal, l, r);
    ExprAccepted(b, l);
    ExprDecidedParts(b, l);
    if LowerExpr(b, l).Ok? {
      LoweredIsWellFormed(b, l);
      ExprAccepted(LowerExpr(b, l).value.b, r);
      ExprDecidedParts(LowerExpr(b, l).value.b, r);
      if LowerExpr(LowerExpr(b, l).value.b, r).Ok? {
        BinDecided(b, op, l, r);
      } else {
        DecidedErr(b, Bin(op, l, r));
      }
    } else {
      DecidedErr(b, Bin(op, l, r));
    }
  }

  /** Both operands of an operation, lowered. */
  lemma PairDecided(b: Builder, l: Expr, r: Expr, cl: Computed, cr: Computed)
    requires WellFormed(b) && LowerExpr(b, l) == Ok(cl) && LowerExpr(cl.b, r) == Ok(cr)
    requires ExprDecided(b, l) && ExprDecided(cl.b, r)
    ensures Grown(b, cr.b, OwedForPair(cl.v, cr.v), false) && b.next <= cr.b.next
    ensures Accepted(l) && Accepted(r) && TypeOfOperand(cl.v) == CompiledType(l)
    ensures TypeOfOperand(cr.v) == CompiledType(r)
    ensures IsVariantOperand(cl.v) == IsVariant(l) && IsVariantOperand(cr.v) == IsVariant(r)
  {
    Balances(b, l);
    Balances(cl.b, r);
    hide LowerExpr, WellFormed, Grown;
    LowerExprGrown(b, l, {}, false);
    LowerExprGrown(cl.b, r, {}, false);
    VariantType(b, cl, l);
    VariantType(cl.b, cr, r);
    assert OperandBelow(cl.v, cl.b.next);
    PairGrown(b, cl, cr, false);
  }

  lemma NativeBinaryDecided(b: Builder, op: BinaryOp, l: Operand, r: Operand)
    ensures NativeBinaryOp(b, op, l, r).Ok? <==> Combines(TypeOfOperand(l), TypeOfOperand(r))
    ensures NativeBinaryOp(b, op, l, r).Ok? ==>
              TypeOfOperand(NativeBinaryOp(b, op, l, r).value.v)
              == if IsIntegerType(TypeOfOperand(l)) && IsIntegerType(TypeOfOperand(r)) then TypeOfOperand(l)
                 else DoubleTy
  {
  }

  lemma NativeComparisonDecided(b: Builder, op: ComparisonOp, l: Operand, r: Operand)
    ensures var ints := IsIntegerType(TypeOfOperand(l)) && IsIntegerType(TypeOfOperand(r));
            && (NativeComparison(b, op, l, r).Ok? <==>
                Combines(TypeOfOperand(l), TypeOfOperand(r)) && (IsLogical(op) ==> ints))
            && (NativeComparison(b, op, l, r).Ok? ==>
                  TypeOfOperand(NativeComparison(b, op, l, r).value.v) == if ints && IsLogical(op) then TypeOfOperand(l)
                                                                          else I1)
  {
  }

  lemma BinTypes(op: BinaryOp, l: Expr, r: Expr)
    ensures Accepted(Bin(op, l, r))
       <==> Accepted(l) && Accepted(r) && (IsVariant(l) || IsVariant(r) || Combines(CompiledType(l), CompiledType(r)))
    ensures CompiledType(Bin(op, l, r))
         == if IsVariant(l) || IsVariant(r) then VariantPtr
            else if IsIntegerType(CompiledType(l)) && IsIntegerType(CompiledType(r)) then CompiledType(l)
            else DoubleTy
    ensures IsVariant(Bin(op, l, r)) == (IsVariant(l) || IsVariant(r))
  {
    hide Combines, IsIntegerType;
  }

  lemma CmpTypes(op: ComparisonOp, l: Expr, r: Expr)
    ensures var ints := IsIntegerType(CompiledType(l)) && IsIntegerType(CompiledType(r));
            && (Accepted(Cmp(op, l, r))
                <==> Accepted(l) && Accepted(r)
                     && (IsVariant(l) || IsVariant(r)
                         || (Combines(CompiledType(l), CompiledType(r)) && (IsLogical(op) ==> ints))))
            && CompiledType(Cmp(op, l, r))
               == (if !IsVariant(l) && !IsVariant(r) && ints && IsLogical(op) then CompiledType(l) else I1)
    ensures !IsVariant(Cmp(op, l, r))
  {
    hide Combines, IsIntegerType;
  }

  /** An expression that compiles meets ExprDecided when its type is as expected. */
  lemma DecidedOk(b: Builder, e: Expr)
    requires WellFormed(b) && LowerExpr(b, e).Ok? && Accepted(e)
    requires TypeOfOperand(LowerExpr(b, e).value.v) == CompiledType(e)
    ensures ExprDecided(b, e)
  {
    Balances(b, e);
    hide LowerExpr, WellFormed, Grown, Accepted, CompiledType;
    LoweredIsWellFormed(b, e);
    LowerExprGrown(b, e, {}, false);
    VariantType(b, LowerExpr(b, e).value, e);
  }

  lemma DecidedErr(b: Builder, e: Expr)
    requires LowerExpr(b, e).Err? && !Accepted(e)
    ensures ExprDecided(b, e)
  {
  }

  lemma BinDecided(b: Builder, op: BinaryOp, l: Expr, r: Expr)
    requires WellFormed(b) && LowerExpr(b, l).Ok? && ExprDecided(b, l)
    requires var cl := LowerExpr(b, l).value; LowerExpr(cl.b, r).Ok? && ExprDecided(cl.b, r)
    ensures ExprDecided(b, Bin(op, l, r))
  {
    hide *;
    var cl := LowerExpr(b, l).value;
    var cr := LowerExpr(cl.b, r).value;
    BinLowers(b, op, l, r, cl, cr);
    BinIs(cr.b, op, cl.v, cr.v);
    PairDecided(b, l, r, cl, cr);
    BinTypes(op, l, r);
    if IsVariantOperand(cl.v) || IsVariantOperand(cr.v) {
      VariantBinaryResultGrown(b, cr.b, op, cl.v, cr.v, false);
      VariantTyped(VariantBinary(cr.b, op, cl.v, cr.v).value.v);
      DecidedOk(b, Bin(op, l, r));
    } else {
      NativeBinaryDecided(cr.b, op, cl.v, cr.v);
      if LowerExpr(b, Bin(op, l, r)).Ok? {
        DecidedOk(b, Bin(op, l, r));
      } else {
        DecidedErr(b, Bin(op, l, r));
      }
    }
  }

  lemma VariantTyped(v: Operand)
    requires v.Reg?
    ensures TypeOfOperand(v) == v.ty
  {
  }

  lemma BinLowers(b: Builder, op: BinaryOp, l: Expr, r: Expr, cl: Computed, cr: Computed)
    requires LowerExpr(b, l) == Ok(cl) && LowerExpr(cl.b, r) == Ok(cr)
    ensures LowerExpr(b, Bin(op, l, r)) == BinResult(cr.b, op, cl.v, cr.v)
  {
    hide VariantBinary, NativeBinaryOp, IsVariantOperand;
  }

  lemma CmpLowers(b: Builder, op: ComparisonOp, l: Expr, r: Expr, cl: Computed, cr: Computed)
    requires LowerExpr(b, l) == Ok(cl) && LowerExpr(cl.b, r) == Ok(cr)
    ensures LowerExpr(b, Cmp(op, l, r)) == CmpResult(cr.b, op, cl.v, cr.v)
  {
    hide VariantComparison, NativeComparison, IsVariantOperand;
  }

  lemma CmpAccepted(b: Builder, op: ComparisonOp, l: Expr, r: Expr)
    requires WellFormed(b)
    ensures ExprDecided(b, Cmp(op, l, r))
    decreases Cmp(op, l, r), 0
  {
    hide *;
    CmpTypes(op, l, r);
    PairFails(b, Addition, op, l, r);
    ExprAccepted(b, l);
    ExprDecidedParts(b, l);
    if LowerExpr(b, l).Ok? {
      LoweredIsWellFormed(b, l);
      ExprAccepted(LowerExpr(b, l).value.b, r);
      ExprDecidedParts(LowerExpr(b, l).value.b, r);
      if LowerExpr(LowerExpr(b, l).value.b, r).Ok? {
        CmpDecided(b, op, l, r);
      } else {
        DecidedErr(b, Cmp(op, l, r));
      }
    } else {
      DecidedErr(b, Cmp(op, l, r));
    }
  }

  /** An operation fails with either operand. */
  lemma PairFails(b: Builder, bop: BinaryOp, cop: ComparisonOp, l: Expr, r: Expr)
    ensures LowerExpr(b, l).Err? || LowerExpr(LowerExpr(b, l).value.b, r).Err? ==>
              LowerExpr(b, Bin(bop, l, r)).Err? && LowerExpr(b, Cmp(cop, l, r)).Err?
  {
    hide VariantBinary, NativeBinaryOp, VariantComparison, NativeComparison;
  }

  lemma CmpDecided(b: Builder, op: ComparisonOp, l: Expr, r: Expr)
    requires WellFormed(b) && LowerExpr(b, l).Ok? && ExprDecided(b, l)
    requires var cl := LowerExpr(b, l).value; LowerExpr(cl.b, r).Ok? && ExprDecided(cl.b, r)
    ensures ExprDecided(b, Cmp(op, l, r))
  {
    hide *;
    var cl := LowerExpr(b, l).value;
    var cr := LowerExpr(cl.b, r).value;
    CmpLowers(b, op, l, r, cl, cr);
    CmpIs(cr.b, op, cl.v, cr.v);
    PairDecided(b, l, r, cl, cr);
    CmpTypes(op, l, r);
    if IsVariantOperand(cl.v) || IsVariantOperand(cr.v) {
      VariantComparisonResultGrown(b, cr.b, op, cl.v, cr.v, false);
      VariantTyped(VariantComparison(cr.b, op, cl.v, cr.v).value.v);
      DecidedOk(b, Cmp(op, l, r));
    } else {
      NativeComparisonDecided(cr.b, op, cl.v, cr.v);
      if LowerExpr(b, Cmp(op, l, r)).Ok? {
        DecidedOk(b, Cmp(op, l, r));
      } else {
        DecidedErr(b, Cmp(op, l, r));
      }
    }
  }

  // ---------- Statements ----------

  /** The loop variables in scope: each name stands for one of the loop variables, numbered
      from the outermost loop inwards. */
  type Scope = map<string, nat>

  function Bound(scope: Scope, k: Option<string>, v: Option<string>, n: nat): Scope {
    var s := if k.Some? then scope[k.value := n] else scope;
    if v.Some? then s[v.value := n + 1] else s
  }

  function IterableOf(it: Expr, scope: Scope): set<nat> {
    if it.Var? && it.name in scope then {scope[it.name]} else {}
  }

  /** The loop variables from outside t over which a loop in t iterates directly. */
  function Iterated(t: AST, scope: Scope, n: nat): set<nat> {
    match t
    case Statements(l) => IteratedAll(l, scope, n)
    case If(_, a, els) => Iterated(a, scope, n) + IteratedOpt(els, scope, n)
    case For(k, v, it, a, els) =>
      IterableOf(it, scope) + Outer(Iterated(a, Bound(scope, k, v, n), n + 2), n) + IteratedOpt(els, scope, n)
    case _ => {}
  }

  function IteratedOpt(o: Option<AST>, scope: Scope, n: nat): set<nat> {
    match o
    case None => {}
    case Some(t) => Iterated(t, scope, n)
  }

  function IteratedAll(l: seq<AST>, scope: Scope, n: nat): set<nat> {
    if l == [] then {} else Iterated(l[0], scope, n) + IteratedAll(l[1..], scope, n)
  }

  function Outer(ids: set<nat>, n: nat): set<nat> {
    set i | i in ids && i < n
  }

  /** What the backend compiles: conditions are booleans that are not variants, iterables are
      variants, includes are resolved, and no loop over a loop variable contains another loop
      over the same one, which would lose the outer loop's metadata. */
  predicate AcceptedStmt(t: AST, scope: Scope, n: nat) {
    match t
    case Statements(l) => AcceptedStmts(l, scope, n)
    case Raw(_) => true
    case Print(e) => Accepted(e)
    case If(c, a, els) => Accepted(c) && CompiledType(c).I1? && AcceptedStmt(a, scope, n) && AcceptedOpt(els, scope, n)
    case For(k, v, it, a, els) =>
      && Accepted(it) && IsVariant(it)
      && AcceptedStmt(a, Bound(scope, k, v, n), n + 2)
      && IterableOf(it, scope) !! Iterated(a, Bound(scope, k, v, n), n + 2)
      && AcceptedOpt(els, scope, n)
    case Include(_, _, _) => false
  }

  predicate AcceptedOpt(o: Option<AST>, scope: Scope, n: nat) {
    match o
    case None => true
    case Some(t) => AcceptedStmt(t, scope, n)
  }

  predicate AcceptedStmts(l: seq<AST>, scope: Scope, n: nat) {
    if l == [] then true else AcceptedStmt(l[0], scope, n) && AcceptedStmts(l[1..], scope, n)
  }

  predicate Below(scope: Scope, n: nat) {
    forall x :: x in scope ==> scope[x] < n
  }

  predicate Names(scope: Scope, i: nat) {
    exists x :: x in scope && scope[x] == i
  }

  lemma {:induction false} IteratedInScope(t: AST, scope: Scope, n: nat)
    requires Below(scope, n)
    ensures forall i :: i in Iterated(t, scope, n) ==> Names(scope, i)
    decreases t
  {
    match t
    case Statements(l) => IteratedAllInScope(l, scope, n);
    case If(_, a, els) =>
      IteratedInScope(a, scope, n);
      if els.Some? { IteratedInScope(els.value, scope, n); }
    case For(k, v, it, a, els) =>
      IteratedInScope(a, Bound(scope, k, v, n), n + 2);
      if els.Some? { IteratedInScope(els.value, scope, n); }
      BoundNames(scope, k, v, n);
    case _ =>
  }

  lemma {:induction false} IteratedAllInScope(l: seq<AST>, scope: Scope, n: nat)
    requires Below(scope, n)
    ensures forall i :: i in IteratedAll(l, scope, n) ==> Names(scope, i)
    decreases l
  {
    if l != [] {
      IteratedInScope(l[0], scope, n);
      IteratedAllInScope(l[1..], scope, n);
    }
  }

  lemma BoundNames(scope: Scope, k: Option<string>, v: Option<string>, n: nat)
    requires Below(scope, n)
    ensures Below(Bound(scope, k, v, n), n + 2)
    ensures forall i: nat :: i < n && Names(Bound(scope, k, v, n), i) ==> Names(scope, i)
  {
    var inner := Bound(scope, k, v, n);
    forall i: nat | i < n && Names(inner, i)
      ensures Names(scope, i)
    {
      var x :| x in inner && inner[x] == i;
      assert x in scope && scope[x] == i;
    }
  }

  /** The overridden variables are the loop variables in scope. */
  ghost predicate Scoped(b: Builder, scope: Scope, n: nat) {
    && Below(scope, n)
    && (forall x :: x in scope <==> x in b.over)
    && (forall x, y :: x in scope && y in scope ==> (scope[x] == scope[y] <==> b.over[x] == b.over[y]))
  }

  ghost predicate MetaBelow(b: Builder) {
    forall o :: o in b.meta ==> o.Reg? && o.id < b.next
  }

  /** The operand is that of one of the given loop variables. */
  ghost predicate StandsFor(over: map<string, Operand>, scope: Scope, ids: set<nat>, o: Operand) {
    exists x :: x in scope && x in over && scope[x] in ids && over[x] == o
  }

  /** Lowering loses the metadata of the given loop variables and of nothing else. */
  ghost predicate Loses(a: Builder, b: Builder, scope: Scope, ids: set<nat>) {
    forall o :: o in b.meta <==> o in a.meta && !StandsFor(a.over, scope, ids, o)
  }

  ghost predicate StmtDecided(b: Builder, r: Stmt, accepted: bool, scope: Scope, ids: set<nat>) {
    && (r.Ok? <==> accepted)
    && (r.Ok? ==> Loses(b, r.value, scope, ids) && StmtGrown(b, r.value, false))
  }

  ghost predicate InScope(b: Builder, scope: Scope, n: nat) {
    WellFormed(b) && Scoped(b, scope, n) && MetaBelow(b)
  }

  /** A statement compiles exactly when it is accepted. */
  lemma {:induction false} StmtAccepted(b: Builder, t: AST, scope: Scope, n: nat)
    requires InScope(b, scope, n)
    ensures StmtDecided(b, LowerStmt(b, t), AcceptedStmt(t, scope, n), scope, Iterated(t, scope, n))
    decreases t, 1
  {
    match t
    case Statements(l) =>
      ListIs(b, l, scope, n);
      StmtsAccepted(b, l, scope, n);
    case Raw(text) => RawAccepted(b, text, scope, n);
    case Print(e) => PrintAccepted(b, e, scope, n);
    case If(c, a, els) => IfAccepted(b, c, a, els, scope, n);
    case For(k, v, it, a, els) => ForAccepted(b, k, v, it, a, els, scope, n);
    case Include(_, _, _) =>
  }

  lemma ListIs(b: Builder, l: seq<AST>, scope: Scope, n: nat)
    ensures LowerStmt(b, Statements(l)) == LowerStmts(b, l)
    ensures AcceptedStmt(Statements(l), scope, n) == AcceptedStmts(l, scope, n)
    ensures Iterated(Statements(l), scope, n) == IteratedAll(l, scope, n)
  {
    hide LowerStmts, AcceptedStmts, IteratedAll;
  }

  lemma LosesNothing(a: Builder, b: Builder, scope: Scope)
    requires b.meta == a.meta
    ensures Loses(a, b, scope, {})
  {
  }

  lemma LosesBoth(a: Builder, b: Builder, c: Builder, scope: Scope, i: set<nat>, j: set<nat>)
    requires Loses(a, b, scope, i) && Loses(b, c, scope, j) && b.over == a.over
    ensures Loses(a, c, scope, i + j)
  {
    forall o
      ensures StandsFor(a.over, scope, i + j, o) <==> StandsFor(a.over, scope, i, o) || StandsFor(a.over, scope, j, o)
    {
    }
  }

  /** A later point with the same variables. */
  lemma StillInScope(a: Builder, b: Builder, scope: Scope, n: nat)
    requires InScope(a, scope, n) && StmtGrown(a, b, false)
    ensures InScope(b, scope, n)
  {
    StmtGrownParts(a, b, false);
    hide WellFormed, Grown, Grows, Owes;
  }

  lemma StmtDecides(b: Builder, t: AST)
    requires WellFormed(b) && LowerStmt(b, t).Ok?
    ensures StmtGrown(b, LowerStmt(b, t).value, false)
  {
    hide LowerStmt, WellFormed, StmtGrown, KeysMatch, ReleasableStmt;
    LowerStmtGrown(b, t, {}, false);
  }

  lemma RawAccepted(b: Builder, text: string, scope: Scope, n: nat)
    requires InScope(b, scope, n)
    ensures StmtDecided(b, LowerStmt(b, Raw(text)), AcceptedStmt(Raw(text), scope, n), scope,
                        Iterated(Raw(text), scope, n))
  {
    StmtDecides(b, Raw(text));
    hide WellFormed, StmtGrown, Scoped;
    LosesNothing(b, LowerStmt(b, Raw(text)).value, scope);
  }

  lemma PrintOutcome(b: Builder, e: Expr)
    ensures LowerExpr(b, e).Err? ==> LowerStmt(b, Print(e)).Err?
    ensures LowerExpr(b, e).Ok? ==>
              var c := LowerExpr(b, e).value;
              var b1 := Emit(c.b, CallPrint(c.v));
              LowerStmt(b, Print(e)) == if IsVariantOperand(c.v) then GoesOutOfScope(b1, c.v) else Ok(b1)
  {
    hide LowerExpr, Emit, GoesOutOfScope;
  }

  /** Printing releases the printed variant, which cannot fail. */
  lemma PrintReleases(b: Builder, c: Computed)
    requires WellFormed(b) && Grown(b, c.b, OwedFor(c.v), false)
    ensures var b1 := Emit(c.b, CallPrint(c.v));
            && b1.meta == c.b.meta
            && (IsVariantOperand(c.v) ==> GoesOutOfScope(b1, c.v).Ok? && GoesOutOfScope(b1, c.v).value.meta == c.b.meta)
  {
    hide WellFormed, Grown, GoesOutOfScope, Emit;
    GrownEmit(b, c.b, OwedFor(c.v), false, 0, CallPrint(c.v));
    assert Fresh(c.b, 0) == c.b;
    if IsVariantOperand(c.v) {
      OwedForVariant(c.v);
      GrownRelease(b, Emit(c.b, CallPrint(c.v)), OwedFor(c.v), false, c.v);
    }
  }

  lemma PrintTypes(e: Expr, scope: Scope, n: nat)
    ensures AcceptedStmt(Print(e), scope, n) == Accepted(e) && Iterated(Print(e), scope, n) == {}
  {
    hide Accepted;
  }

  lemma PrintAccepted(b: Builder, e: Expr, scope: Scope, n: nat)
    requires InScope(b, scope, n)
    ensures StmtDecided(b, LowerStmt(b, Print(e)), AcceptedStmt(Print(e), scope, n), scope,
                        Iterated(Print(e), scope, n))
  {
    hide *;
    InScopeParts(b, scope, n);
    PrintOutcome(b, e);
    PrintTypes(e, scope, n);
    ExprAccepted(b, e);
    ExprDecidedParts(b, e);
    if LowerExpr(b, e).Ok? {
      var c := LowerExpr(b, e).value;
      ExprInScope(b, e, scope, n);
      ExprGrownParts(b, c, e, {}, false);
      PrintReleases(b, c);
      StmtDecides(b, Print(e));
      LosesNothing(b, LowerStmt(b, Print(e)).value, scope);
    }
    IsDecided(b, LowerStmt(b, Print(e)), AcceptedStmt(Print(e), scope, n), scope, Iterated(Print(e), scope, n));
  }

  lemma {:induction false} OptAccepted(b: Builder, o: Option<AST>, scope: Scope, n: nat)
    requires InScope(b, scope, n)
    ensures StmtDecided(b, LowerOpt(b, o), AcceptedOpt(o, scope, n), scope, IteratedOpt(o, scope, n))
    decreases o, 0
  {
    hide InScope;
    match o
    case None =>
      LosesNothing(b, b, scope);
      OptNoneGrown(b, scope, n);
    case Some(t) => StmtAccepted(b, t, scope, n);
  }

  lemma OptNoneGrown(b: Builder, scope: Scope, n: nat)
    requires InScope(b, scope, n)
    ensures StmtGrown(b, b, false)
  {
    GrownSelf(b, false);
  }

  lemma {:induction false} StmtsAccepted(b: Builder, l: seq<AST>, scope: Scope, n: nat)
    requires InScope(b, scope, n)
    ensures StmtDecided(b, LowerStmts(b, l), AcceptedStmts(l, scope, n), scope, IteratedAll(l, scope, n))
    decreases l, 0
  {
    hide InScope, StmtGrown, LowerStmt, Loses, AcceptedStmt, Iterated;
    if l == [] {
      LosesNothing(b, b, scope);
      OptNoneGrown(b, scope, n);
    } else {
      StmtAccepted(b, l[0], scope, n);
      if LowerStmt(b, l[0]).Ok? {
        var b1 := LowerStmt(b, l[0]).value;
        StillInScope(b, b1, scope, n);
        StmtsAccepted(b1, l[1..], scope, n);
        if LowerStmts(b1, l[1..]).Ok? {
          StmtGrownParts(b, b1, false);
          LosesBoth(b, b1, LowerStmts(b1, l[1..]).value, scope, Iterated(l[0], scope, n),
                    IteratedAll(l[1..], scope, n));
          StmtGrownTrans(b, b1, LowerStmts(b1, l[1..]).value, false);
        }
      }
    }
  }

  // ---------- Conditionals ----------

  /** Where lowering a conditional stops. */
  lemma IfOutcomes(b: Builder, cond: Expr, a: AST, els: Option<AST>)
    ensures LowerExpr(b, cond).Err? ==> LowerStmt(b, If(cond, a, els)).Err?
    ensures LowerExpr(b, cond).Ok? ==>
              var c := LowerExpr(b, cond).value;
              var s := IfStart(c.b, c.v);
              && (!TypeOfOperand(c.v).I1? || LowerStmt(s, a).Err? ==> LowerStmt(b, If(cond, a, els)).Err?)
              && (TypeOfOperand(c.v).I1? && LowerStmt(s, a).Ok? ==>
                    var b1 := LowerStmt(s, a).value;
                    var n := |c.b.blocks|;
                    && n + 2 < |b1.blocks|
                    && (LowerOpt(IfElse(b1, n), els).Err? ==> LowerStmt(b, If(cond, a, els)).Err?)
                    && (LowerOpt(IfElse(b1, n), els).Ok? ==>
                          var b2 := LowerOpt(IfElse(b1, n), els).value;
                          n + 2 < |b2.blocks| && LowerStmt(b, If(cond, a, els)) == Ok(IfEnd(b2, n))))
  {
    hide LowerExpr, LowerOpt, IfStart, IfElse, IfEnd;
  }

  lemma IfIs(cond: Expr, a: AST, els: Option<AST>, scope: Scope, n: nat)
    ensures AcceptedStmt(If(cond, a, els), scope, n)
       <==> Accepted(cond) && CompiledType(cond).I1? && AcceptedStmt(a, scope, n) && AcceptedOpt(els, scope, n)
    ensures Iterated(If(cond, a, els), scope, n) == Iterated(a, scope, n) + IteratedOpt(els, scope, n)
  {
    hide Accepted, CompiledType;
  }

  /** Only metadata and overridden variables matter. */
  lemma LosesSame(a: Builder, a': Builder, b: Builder, b': Builder, scope: Scope, ids: set<nat>)
    requires Loses(a, b, scope, ids) && a'.meta == a.meta && a'.over == a.over && b'.meta == b.meta
    ensures Loses(a', b', scope, ids)
  {
  }

  /** The insertion point moves; variables, counts and metadata stay. */
  lemma MovedInScope(a: Builder, b: Builder, scope: Scope, n: nat)
    requires InScope(a, scope, n) && Open(b) && b.refs == a.refs && b.over == a.over && b.meta == a.meta
    requires a.next <= b.next
    ensures InScope(b, scope, n)
  {
  }

  /** After an expression the same variables are in scope. */
  lemma ExprInScope(b: Builder, e: Expr, scope: Scope, n: nat)
    requires InScope(b, scope, n) && LowerExpr(b, e).Ok?
    ensures var c := LowerExpr(b, e).value;
            && InScope(c.b, scope, n) && c.b.meta == b.meta && c.b.over == b.over && Open(c.b)
               && ExprGrown(b, c, e, {}, false)
            && b.next <= c.b.next
  {
    Balances(b, e);
    hide LowerExpr, WellFormed, Owes, Grows;
    LowerExprGrown(b, e, {}, false);
    var c := LowerExpr(b, e).value;
    ExprGrownParts(b, c, e, {}, false);
    GrowsOpen(b, c.b);
  }

  lemma InScopeParts(b: Builder, scope: Scope, n: nat)
    requires InScope(b, scope, n)
    ensures WellFormed(b) && Scoped(b, scope, n) && MetaBelow(b) && Below(scope, n)
  {
    hide WellFormed, MetaBelow;
  }

  lemma DecidedParts(b: Builder, r: Stmt, accepted: bool, scope: Scope, ids: set<nat>)
    requires StmtDecided(b, r, accepted, scope, ids)
    ensures r.Ok? <==> accepted
    ensures r.Ok? ==> Loses(b, r.value, scope, ids) && StmtGrown(b, r.value, false)
  {
    hide Loses, StmtGrown;
  }

  lemma IsDecided(b: Builder, r: Stmt, accepted: bool, scope: Scope, ids: set<nat>)
    requires r.Ok? <==> accepted
    requires r.Ok? ==> Loses(b, r.value, scope, ids) && StmtGrown(b, r.value, false)
    ensures StmtDecided(b, r, accepted, scope, ids)
  {
    hide Loses, StmtGrown;
  }

  lemma ExprDecidedParts(b: Builder, e: Expr)
    requires ExprDecided(b, e)
    ensures LowerExpr(b, e).Ok? <==> Accepted(e)
    ensures LowerExpr(b, e).Ok? ==> TypeOfOperand(LowerExpr(b, e).value.v) == CompiledType(e)
    ensures LowerExpr(b, e).Ok? ==> IsVariantOperand(LowerExpr(b, e).value.v) == IsVariant(e)
  {
    hide LowerExpr, WellFormed, Accepted, CompiledType, IsVariant;
  }

  lemma IfAccepted(b: Builder, cond: Expr, a: AST, els: Option<AST>, scope: Scope, n: nat)
    requires InScope(b, scope, n)
    ensures var t := If(cond, a, els);
            StmtDecided(b, LowerStmt(b, t), AcceptedStmt(t, scope, n), scope, Iterated(t, scope, n))
    decreases If(cond, a, els), 0
  {
    hide *;
    var t := If(cond, a, els);
    InScopeParts(b, scope, n);
    IfOutcomes(b, cond, a, els);
    IfIs(cond, a, els, scope, n);
    ExprAccepted(b, cond);
    ExprDecidedParts(b, cond);
    if LowerExpr(b, cond).Ok? && TypeOfOperand(LowerExpr(b, cond).value.v).I1? {
      var c := LowerExpr(b, cond).value;
      var s := IfStart(c.b, c.v);
      ExprInScope(b, cond, scope, n);
      IfStartKeeps(c.b, c.v);
      MovedInScope(c.b, s, scope, n);
      StmtAccepted(s, a, scope, n);
      DecidedParts(s, LowerStmt(s, a), AcceptedStmt(a, scope, n), scope, Iterated(a, scope, n));
      if LowerStmt(s, a).Ok? {
        var b1 := LowerStmt(s, a).value;
        var m := |c.b.blocks|;
        var e := IfElse(b1, m);
        StmtGrownParts(s, b1, false);
        IfElseOpen(c.b, c.v, b1);
        StillInScope(s, b1, scope, n);
        MovedInScope(b1, e, scope, n);
        OptAccepted(e, els, scope, n);
        DecidedParts(e, LowerOpt(e, els), AcceptedOpt(els, scope, n), scope, IteratedOpt(els, scope, n));
        if LowerOpt(e, els).Ok? {
          var b2 := LowerOpt(e, els).value;
          var f := IfEnd(b2, m);
          IfEndKeeps(b2, m);
          LosesSame(s, b, b1, b1, scope, Iterated(a, scope, n));
          LosesSame(e, b1, b2, f, scope, IteratedOpt(els, scope, n));
          LosesBoth(b, b1, f, scope, Iterated(a, scope, n), IteratedOpt(els, scope, n));
          StmtDecides(b, t);
        }
      }
    }
    IsDecided(b, LowerStmt(b, t), AcceptedStmt(t, scope, n), scope, Iterated(t, scope, n));
  }

  // ---------- Loops ----------

  lemma NextGrows(b: Builder, e: Expr)
    requires WellFormed(b) && LowerExpr(b, e).Ok?
    ensures b.next <= LowerExpr(b, e).value.b.next && WellFormed(LowerExpr(b, e).value.b)
    ensures IsVariantOperand(LowerExpr(b, e).value.v) == IsVariant(e)
  {
    hide *;
    Balances(b, e);
    LowerExprGrown(b, e, {}, false);
    VariantType(b, LowerExpr(b, e).value, e);
    LoweredIsWellFormed(b, e);
  }

  lemma WrapNext(b: Builder, v: Operand)
    ensures b.next <= WrapAsVariant(b, v).b.next
  {
  }

  lemma WrapBothNext(b: Builder, l: Operand, r: Operand)
    ensures b.next <= WrapBoth(b, l, r).b.next
  {
    hide WrapAsVariant;
    WrapNext(b, l);
    WrapNext(WrapAsVariant(b, l).b, r);
  }

  lemma {:induction false} WrapAllNext(b: Builder, vs: seq<Operand>)
    ensures b.next <= WrapAll(b, vs).b.next
    decreases vs
  {
    hide WrapAsVariant;
    if vs != [] {
      WrapNext(b, vs[0]);
      WrapAllNext(WrapAsVariant(b, vs[0]).b, vs[1..]);
    }
  }

  /** A variant is in a new register, unless it is an overridden variable. */
  ghost predicate NewOrOverridden(b: Builder, e: Expr, v: Operand) {
    v.Reg? && if e.Var? && e.name in b.over then v == b.over[e.name] else b.next <= v.id
  }

  lemma FreshOrOverridden(b: Builder, e: Expr)
    requires WellFormed(b) && LowerExpr(b, e).Ok? && IsVariant(e)
    ensures NewOrOverridden(b, e, LowerExpr(b, e).value.v)
  {
    match e
    case Var(x) => VarFresh(b, x);
    case Attr(base, n) => AttrFresh(b, base, n);
    case Call(f, args) => CallFresh(b, f, args);
    case Bin(op, l, r) => BinFresh(b, op, l, r);
    case Un(op, s) => UnFresh(b, op, s);
  }

  lemma VarFresh(b: Builder, x: string)
    requires WellFormed(b) && LowerExpr(b, Var(x)).Ok?
    ensures NewOrOverridden(b, Var(x), LowerExpr(b, Var(x)).value.v)
  {
  }

  lemma AttrFresh(b: Builder, base: Expr, n: string)
    requires WellFormed(b) && LowerExpr(b, Attr(base, n)).Ok?
    ensures NewOrOverridden(b, Attr(base, n), LowerExpr(b, Attr(base, n)).value.v)
  {
    hide LowerExpr, WellFormed, AttributeLookup;
    AttributeOf(b, base, n);
    NextGrows(b, base);
    AttributeParts(LowerExpr(b, base).value.b, n, LowerExpr(b, base).value.v);
  }

  lemma CallFresh(b: Builder, f: string, args: seq<Expr>)
    requires WellFormed(b) && LowerExpr(b, Call(f, args)).Ok?
    ensures NewOrOverridden(b, Call(f, args), LowerExpr(b, Call(f, args)).value.v)
  {
    hide LowerExpr, LowerExprs, WellFormed, MethodCall, WrapAll;
    CallUnfolds(b, f, args);
    ExprsGrow(b, args);
    var c := LowerExprs(b, args).value;
    MethodUnfolds(c.b, f, c.vs);
    WrapAllNext(c.b, c.vs);
  }

  lemma BinFresh(b: Builder, op: BinaryOp, l: Expr, r: Expr)
    requires WellFormed(b) && LowerExpr(b, Bin(op, l, r)).Ok? && IsVariant(Bin(op, l, r))
    ensures NewOrOverridden(b, Bin(op, l, r), LowerExpr(b, Bin(op, l, r)).value.v)
  {
    hide LowerExpr, WellFormed, BinResult, WrapBoth, VariantBinary;
    BinUnfolds(b, op, l, r);
    var cl := LowerExpr(b, l).value;
    var cr := LowerExpr(cl.b, r).value;
    NextGrows(b, l);
    NextGrows(cl.b, r);
    BinIs(cr.b, op, cl.v, cr.v);
    BinaryUnfolds(cr.b, op, cl.v, cr.v);
    WrapBothNext(cr.b, cl.v, cr.v);
  }

  lemma UnFresh(b: Builder, op: UnaryOp, s: Expr)
    requires WellFormed(b) && LowerExpr(b, Un(op, s)).Ok? && IsVariant(s)
    ensures NewOrOverridden(b, Un(op, s), LowerExpr(b, Un(op, s)).value.v)
  {
    hide LowerExpr, WellFormed, UnResult, VariantUnary;
    UnUnfolds(b, op, s);
    var c := LowerExpr(b, s).value;
    NextGrows(b, s);
    UnIsVariant(c.b, op, c.v);
    UnaryUnfolds(c.b, op, c.v);
  }

  /** The body sees the loop's own variables as new ones. */
  lemma BodyInScope(c: Builder, p: Builder, body: Builder, k: Option<string>, v: Option<string>, vars: LoopVars,
                    scope: Scope, n: nat)
    requires Scoped(c, scope, n) && WellFormed(c) && p.over == c.over && c.next <= p.next
    requires vars == VarsOf(p, k.Some?, v.Some?) && body.over == LoopOver(p.over, k, v, vars)
    ensures Scoped(body, Bound(scope, k, v, n), n + 2)
  {
    BoundNames(scope, k, v, n);
  }

  /** Loop variables of outside keep their operands in the body, and nothing else has one of
      them. */
  lemma BodyStandsFor(c: Builder, p: Builder, body: Builder, k: Option<string>, v: Option<string>, vars: LoopVars,
                      scope: Scope, n: nat, ids: set<nat>, o: Operand)
    requires Scoped(c, scope, n) && WellFormed(c) && p.over == c.over && c.next <= p.next
    requires vars == VarsOf(p, k.Some?, v.Some?) && body.over == LoopOver(p.over, k, v, vars)
    requires forall i :: i in ids ==> Names(Bound(scope, k, v, n), i)
    requires o.Reg? && o.id < p.next
    ensures StandsFor(body.over, Bound(scope, k, v, n), ids, o) <==> StandsFor(c.over, scope, Outer(ids, n), o)
  {
    var inner := Bound(scope, k, v, n);
    if StandsFor(body.over, inner, ids, o) {
      var x :| x in inner && x in body.over && inner[x] in ids && body.over[x] == o;
      assert Some(x) != k && Some(x) != v;
      assert x in scope && scope[x] == inner[x] && c.over[x] == o;
    }
    if StandsFor(c.over, scope, Outer(ids, n), o) {
      var x :| x in scope && x in c.over && scope[x] in Outer(ids, n) && c.over[x] == o;
      var y :| y in inner && inner[y] == scope[x];
      assert Some(y) != k && Some(y) != v;
      assert y in scope && scope[y] == scope[x] && c.over[y] == c.over[x] == body.over[y];
    }
  }

  /** The iterable's own metadata is lost in the body exactly when a loop there iterates over
      the same loop variable. */
  lemma IterableLost(b: Builder, it: Expr, o: Operand, scope: Scope, n: nat, ids: set<nat>)
    requires Scoped(b, scope, n) && WellFormed(b) && NewOrOverridden(b, it, o)
    ensures StandsFor(b.over, scope, Outer(ids, n), o) <==> !(IterableOf(it, scope) !! ids)
  {
    if it.Var? && it.name in b.over {
      var i := scope[it.name];
      assert IterableOf(it, scope) == {i};
      if i in ids {
        assert i in Outer(ids, n);
      }
    } else {
      assert IterableOf(it, scope) == {};
    }
  }

  /** At the end of the loop the iterable's metadata is erased as well. */
  lemma IterableErased(b: Builder, it: Expr, o: Operand, scope: Scope, n: nat, p: Operand)
    requires Scoped(b, scope, n) && WellFormed(b) && NewOrOverridden(b, it, o) && p.Reg? && p.id < b.next
    ensures p == o <==> StandsFor(b.over, scope, IterableOf(it, scope), p)
  {
  }

  function BodyOf(c: Computed, k: Option<string>, v: Option<string>): Builder {
    var parts := PartsOf(c.b, c.v);
    var p := LoopStart(c.b, parts);
    var b2 := LoopGet(p, parts.meta, VarsOf(p, k.Some?, v.Some?));
    b2.(over := LoopOver(b2.over, k, v, VarsOf(p, k.Some?, v.Some?)))
  }

  function RestoredOf(c: Computed, k: Option<string>, v: Option<string>, d: Builder): Builder {
    var parts := PartsOf(c.b, c.v);
    var p := LoopStart(c.b, parts);
    var b2 := LoopGet(p, parts.meta, VarsOf(p, k.Some?, v.Some?));
    d.(over := Restore(Restore(d.over, k, b2.over), v, b2.over))
  }

  lemma ForFailsFirst(b: Builder, k: Option<string>, v: Option<string>, it: Expr, a: AST, els: Option<AST>)
    requires LowerExpr(b, it).Err? || !IsVariantOperand(LowerExpr(b, it).value.v)
    ensures LowerStmt(b, For(k, v, it, a, els)).Err?
  {
    hide LowerExpr;
  }

  lemma ForFailsInBody(b: Builder, k: Option<string>, v: Option<string>, it: Expr, a: AST, els: Option<AST>,
                       c: Computed)
    requires LowerExpr(b, it) == Ok(c) && IsVariantOperand(c.v) && LowerStmt(BodyOf(c, k, v), a).Err?
    ensures LowerStmt(b, For(k, v, it, a, els)).Err?
  {
    hide LowerExpr, LoopStart, LoopGet, LoopOver;
  }

  lemma ForFailsAfterBody(b: Builder, k: Option<string>, v: Option<string>, it: Expr, a: AST, els: Option<AST>,
                          c: Computed, b3: Builder)
    requires LowerExpr(b, it) == Ok(c) && IsVariantOperand(c.v) && LowerStmt(BodyOf(c, k, v), a) == Ok(b3)
    requires var vars := VarsOf(LoopStart(c.b, PartsOf(c.b, c.v)), k.Some?, v.Some?);
             && DropVariables(b3, vars).Ok?
             && var b4 := RestoredOf(c, k, v, DropVariables(b3, vars).value);
                PartsOf(c.b, c.v).loopElse < |b4.blocks| && LoopNext(b4, PartsOf(c.b, c.v)).Err?
    ensures LowerStmt(b, For(k, v, it, a, els)).Err?
  {
    hide LowerExpr, LoopStart, LoopGet, LoopOver, DropVariables, LoopNext, Restore;
  }

  lemma ForFailsInElse(b: Builder, k: Option<string>, v: Option<string>, it: Expr, a: AST, els: Option<AST>,
                       c: Computed, b3: Builder, b5: Builder)
    requires LowerExpr(b, it) == Ok(c) && IsVariantOperand(c.v) && LowerStmt(BodyOf(c, k, v), a) == Ok(b3)
    requires var vars := VarsOf(LoopStart(c.b, PartsOf(c.b, c.v)), k.Some?, v.Some?);
             && DropVariables(b3, vars).Ok?
             && var b4 := RestoredOf(c, k, v, DropVariables(b3, vars).value);
                PartsOf(c.b, c.v).loopElse < |b4.blocks| && LoopNext(b4, PartsOf(c.b, c.v)) == Ok(b5)
                  && LowerOpt(b5, els).Err?
    ensures LowerStmt(b, For(k, v, it, a, els)).Err?
  {
    hide LowerExpr, LowerOpt, LoopStart, LoopGet, LoopOver, DropVariables, LoopNext, Restore;
  }

  lemma ForReachesEnd(b: Builder, k: Option<string>, v: Option<string>, it: Expr, a: AST, els: Option<AST>, c: Computed,
                      b3: Builder, b5: Builder, b6: Builder)
    requires LowerExpr(b, it) == Ok(c) && IsVariantOperand(c.v) && LowerStmt(BodyOf(c, k, v), a) == Ok(b3)
    requires var vars := VarsOf(LoopStart(c.b, PartsOf(c.b, c.v)), k.Some?, v.Some?);
             && DropVariables(b3, vars).Ok?
             && var b4 := RestoredOf(c, k, v, DropVariables(b3, vars).value);
                PartsOf(c.b, c.v).loopElse < |b4.blocks| && LoopNext(b4, PartsOf(c.b, c.v)) == Ok(b5)
                  && LowerOpt(b5, els) == Ok(b6)
    requires PartsOf(c.b, c.v).after < |b6.blocks|
    ensures var p := LoopStart(c.b, PartsOf(c.b, c.v));
            var b4 := RestoredOf(c, k, v, DropVariables(b3, VarsOf(p, k.Some?, v.Some?)).value);
            LoopStages(b, k, v, it, a, els, c, p, BodyOf(c, k, v), b3, b4, b5, b6)
  {
    hide LowerExpr, LowerOpt, LoopStart, LoopGet, LoopOver, DropVariables, LoopNext, LoopEnd, Restore;
  }

  lemma ForIs(k: Option<string>, v: Option<string>, it: Expr, a: AST, els: Option<AST>, scope: Scope, n: nat)
    ensures var inner := Bound(scope, k, v, n);
            && (AcceptedStmt(For(k, v, it, a, els), scope, n)
                <==> Accepted(it) && IsVariant(it) && AcceptedStmt(a, inner, n + 2)
                     && IterableOf(it, scope) !! Iterated(a, inner, n + 2) && AcceptedOpt(els, scope, n))
            && Iterated(For(k, v, it, a, els), scope, n)
               == IterableOf(it, scope) + Outer(Iterated(a, inner, n + 2), n) + IteratedOpt(els, scope, n)
  {
    hide Accepted, IsVariant, Bound, IterableOf, Outer;
  }

  lemma BodyIs(c: Computed, k: Option<string>, v: Option<string>)
    ensures var p := LoopStart(c.b, PartsOf(c.b, c.v));
            var vars := VarsOf(p, k.Some?, v.Some?);
            && BodyBegins(c.b, c.v, k, v, p, BodyOf(c, k, v))
            && LoopGet(p, PartsOf(c.b, c.v).meta, vars).over == p.over
            && BodyOf(c, k, v).over == LoopOver(p.over, k, v, vars)
            && p.over == c.b.over && p.next == c.b.next + 3
               && PartsOf(c.b, c.v) == PartsOf(c.b, PartsOf(c.b, c.v).iterable)
  {
    LoopGetOver(LoopStart(c.b, PartsOf(c.b, c.v)), PartsOf(c.b, c.v).meta,
                VarsOf(LoopStart(c.b, PartsOf(c.b, c.v)), k.Some?, v.Some?));
    hide LoopGet;
  }

  lemma BodyMeta(c: Builder, body: Builder, o: Operand, meta: Meta)
    requires MetaBelow(c) && o.Reg? && o.id < c.next && body.meta == c.meta[o := meta] && c.next <= body.next
    ensures MetaBelow(body)
  {
  }

  lemma IsInScope(b: Builder, scope: Scope, n: nat)
    requires WellFormed(b) && Scoped(b, scope, n) && MetaBelow(b)
    ensures InScope(b, scope, n)
  {
    hide WellFormed, Scoped, MetaBelow;
  }

  /** LoopNext finds the metadata or fails. */
  lemma NextDecided(b: Builder, parts: LoopParts)
    requires parts.loopElse < |b.blocks|
    ensures LoopNext(b, parts).Ok? <==> parts.iterable in b.meta
  {
  }

  lemma LosesAt(a: Builder, b: Builder, scope: Scope, ids: set<nat>, o: Operand)
    requires Loses(a, b, scope, ids)
    ensures o in b.meta <==> o in a.meta && !StandsFor(a.over, scope, ids, o)
  {
    hide StandsFor;
  }

  lemma MetaBelowLater(c: Builder, b: Builder, p: map<Operand, Meta>, o: Operand)
    requires MetaBelow(c) && o.Reg? && o.id < c.next && c.next <= b.next
    requires MetaLe(b.meta, p) && forall q :: q in p ==> q in c.meta || q == o
    ensures MetaBelow(b)
  {
  }

  lemma ScopedSame(a: Builder, b: Builder, scope: Scope, n: nat)
    requires Scoped(a, scope, n) && b.over == a.over
    ensures Scoped(b, scope, n)
  {
  }

  /** The body of a loop: what is in scope there, and what it may lose. */
  lemma LoopBodyScope(b: Builder, k: Option<string>, v: Option<string>, it: Expr, c: Computed, p: Builder,
                      body: Builder, scope: Scope, n: nat)
    requires InScope(b, scope, n) && LowerExpr(b, it) == Ok(c) && IsVariantOperand(c.v)
    requires p == LoopStart(c.b, PartsOf(c.b, c.v)) && body == BodyOf(c, k, v)
    ensures InScope(c.b, scope, n) && c.b.meta == b.meta && c.b.over == b.over && Open(c.b)
    ensures ExprGrown(b, c, it, {}, false)
    ensures c.v.Reg? && c.v.id < c.b.next && b.next <= c.b.next && WellFormed(p) && p.over == c.b.over
    ensures c.b.next + 3 == p.next
    ensures InScope(body, Bound(scope, k, v, n), n + 2)
    ensures Grows(p, body) && Owes(p, body, OwedForVars(VarsOf(p, k.Some?, v.Some?)), false)
    ensures Owes(c.b, p, multiset{}, false)
    ensures body.meta == p.meta == b.meta[c.v := PartsOf(c.b, c.v).meta]
    ensures body.over == LoopOver(p.over, k, v, VarsOf(p, k.Some?, v.Some?))
    ensures p.next <= body.next
  {
    hide *;
    ExprInScope(b, it, scope, n);
    InScopeParts(b, scope, n);
    ExprGrows(b, it);
    InScopeParts(c.b, scope, n);
    BodyIs(c, k, v);
    BodyStart(c.b, c.v, k, v, p, body, {}, false);
    GrowsOpen(p, body);
    OperandIsBelow(c.v, c.b.next);
    BodyInScope(c.b, p, body, k, v, VarsOf(p, k.Some?, v.Some?), scope, n);
    BodyMeta(c.b, body, c.v, PartsOf(c.b, c.v).meta);
    IsInScope(body, Bound(scope, k, v, n), n + 2);
  }

  lemma OperandIsBelow(v: Operand, n: nat)
    requires OperandBelow(v, n) && v.Reg?
    ensures v.id < n
  {
  }

  /** After the body: its variables are released, and the iterable's metadata is still there
      unless a loop in the body iterated over the same loop variable. */
  lemma LoopBodyEnds(b: Builder, k: Option<string>, v: Option<string>, it: Expr, a: AST, c: Computed, p: Builder,
                     body: Builder, b3: Builder, scope: Scope, n: nat)
    requires InScope(b, scope, n) && LowerExpr(b, it) == Ok(c) && IsVariantOperand(c.v)
    requires p == LoopStart(c.b, PartsOf(c.b, c.v)) && body == BodyOf(c, k, v) && LowerStmt(body, a) == Ok(b3)
    requires Loses(body, b3, Bound(scope, k, v, n), Iterated(a, Bound(scope, k, v, n), n + 2))
    requires StmtGrown(body, b3, false)
    ensures var vars := VarsOf(p, k.Some?, v.Some?);
            && DropVariables(b3, vars).Ok?
            && var b4 := RestoredOf(c, k, v, DropVariables(b3, vars).value);
               && PartsOf(c.b, c.v).loopElse < |b4.blocks| && PartsOf(c.b, c.v).after < |b4.blocks|
               && b4.meta == b3.meta
               && (LoopNext(b4, PartsOf(c.b, c.v)).Ok? <==>
                   IterableOf(it, scope) !! Iterated(a, Bound(scope, k, v, n), n + 2))
  {
    hide *;
    var vars := VarsOf(p, k.Some?, v.Some?);
    var inner, ids := Bound(scope, k, v, n), Iterated(a, Bound(scope, k, v, n), n + 2);
    LoopBodyScope(b, k, v, it, c, p, body, scope, n);
    StmtGrownParts(body, b3, false);
    OwesGrows(p, body, b3, OwedForVars(vars), false);
    DropVariablesGrown(p, b3, vars, false);
    var d := DropVariables(b3, vars).value;
    var b4 := RestoredOf(c, k, v, d);
    RestoredIs(c, k, v, d);
    LoopHasBlocks(c.b, c.v, p, d);
    NextDecided(b4, PartsOf(c.b, c.v));
    PartsIterable(c.b, c.v);
    LosesAt(body, b3, inner, ids, c.v);
    InScopeParts(c.b, scope, n);
    InScopeParts(b, scope, n);
    BoundNames(scope, k, v, n);
    IteratedInScope(a, inner, n + 2);
    BodyStandsFor(c.b, p, body, k, v, vars, scope, n, ids, c.v);
    ExprAccepted(b, it);
    ExprDecidedParts(b, it);
    FreshOrOverridden(b, it);
    IterableLost(b, it, c.v, scope, n, ids);
  }

  lemma RestoredIs(c: Computed, k: Option<string>, v: Option<string>, d: Builder)
    ensures var b4 := RestoredOf(c, k, v, d);
            b4.meta == d.meta && b4.blocks == d.blocks && b4.refs == d.refs && b4.next == d.next
  {
    hide LoopGet, LoopStart, Restore;
  }

  lemma LoopHasBlocks(c: Builder, o: Operand, p: Builder, d: Builder)
    requires p == LoopStart(c, PartsOf(c, o)) && Grows(p, d)
    ensures PartsOf(c, o).loopElse < |d.blocks| && PartsOf(c, o).after < |d.blocks|
  {
  }

  lemma PartsIterable(c: Builder, o: Operand)
    ensures PartsOf(c, o).iterable == o
  {
  }

  /** The else body: the same variables as before the loop. */
  lemma LoopElseScope(l: Loop, scope: Scope, n: nat)
    requires InScope(l.b, scope, n) && Staged(l) && l.body == BodyOf(l.c, l.k, l.v)
    ensures InScope(l.b5, scope, n) && l.b5.over == l.b.over && l.b5.meta == l.b4.meta == l.b3.meta
    ensures StmtGrown(l.body, l.b3, false)
    ensures Grows(l.p, l.b4) && Owes(l.c.b, l.b5, multiset{}, false) && l.b5.next >= l.c.b.next
  {
    hide *;
    StagedParts(l);
    StagedIs(l);
    InScopeParts(l.b, scope, n);
    StmtBalances(l.b, For(l.k, l.v, l.it, l.a, l.els));
    LoopIsBuilt(l, {}, false);
    LoopBodyScope(l.b, l.k, l.v, l.it, l.c, l.p, l.body, scope, n);
    InScopeParts(l.body, Bound(scope, l.k, l.v, n), n + 2);
    StmtDecides(l.body, l.a);
    StmtGrownParts(l.body, l.b3, false);
    PartsAre(l);
    NextOpen(l.c.b, l.c.v, l.p, l.b4, l.b5);
    ExprGrownParts(l.b, l.c, l.it, {}, false);
    BodyEnd(l.b, l.k, l.v, l.it, l.a, l.els, l.c, l.p, l.body, l.b3, l.b4, l.b5, l.b6, {}, false);
    ScopedSame(l.b, l.b5, scope, n);
    InScopeParts(l.c.b, scope, n);
    MetaBelowLater(l.c.b, l.b5, l.p.meta, l.c.v);
    IsInScope(l.b5, scope, n);
  }

  lemma StmtBalances(b: Builder, t: AST)
    ensures BalancedStmt(b, t, {}, false)
  {
  }

  /** A loop that gets to its end compiles, and loses what its parts lose. */
  lemma LoopEnds(l: Loop, scope: Scope, n: nat, ids: set<nat>, els: set<nat>)
    requires InScope(l.b, scope, n) && Staged(l) && l.body == BodyOf(l.c, l.k, l.v)
    requires ids == Iterated(l.a, Bound(scope, l.k, l.v, n), n + 2)
    requires Loses(l.body, l.b3, Bound(scope, l.k, l.v, n), ids)
    requires Loses(l.b5, l.b6, scope, els) && StmtGrown(l.b5, l.b6, false)
    ensures var r := LowerStmt(l.b, For(l.k, l.v, l.it, l.a, l.els));
            r.Ok? && Loses(l.b, r.value, scope, IterableOf(l.it, scope) + Outer(ids, n) + els)
  {
    hide *;
    StagedParts(l);
    StagedIs(l);
    PartsAre(l);
    LoopBodyScope(l.b, l.k, l.v, l.it, l.c, l.p, l.body, scope, n);
    LoopElseScope(l, scope, n);
    InScopeParts(l.b, scope, n);
    InScopeParts(l.c.b, scope, n);
    ExprGrownParts(l.b, l.c, l.it, {}, false);
    LoopFinish(l.b, l.k, l.v, l.it, l.a, l.els, l.c, l.p, l.body, l.b3, l.b4, l.b5, l.b6, false);
    var inner := Bound(scope, l.k, l.v, n);
    BoundNames(scope, l.k, l.v, n);
    IteratedInScope(l.a, inner, n + 2);
    LoopEndMeta(l);
    var f := LowerStmt(l.b, For(l.k, l.v, l.it, l.a, l.els)).value;
    ExprAccepted(l.b, l.it);
    ExprDecidedParts(l.b, l.it);
    FreshOrOverridden(l.b, l.it);
    forall q
      ensures q in f.meta <==>
                  q in l.b.meta && !StandsFor(l.b.over, scope, IterableOf(l.it, scope) + Outer(ids, n) + els, q)
    {
      StandsForAny(l.b.over, scope, IterableOf(l.it, scope), Outer(ids, n), els, q);
      LosesAt(l.b5, l.b6, scope, els, q);
      LosesAt(l.body, l.b3, inner, ids, q);
      if q in l.b.meta {
        MetaIsBelow(l.b, q);
        BodyStandsFor(l.c.b, l.p, l.body, l.k, l.v, VarsOf(l.p, l.k.Some?, l.v.Some?), scope, n, ids, q);
        IterableErased(l.b, l.it, l.c.v, scope, n, q);
      }
    }
    LosesAll(l.b, f, scope, IterableOf(l.it, scope) + Outer(ids, n) + els);
  }

  lemma LosesAll(a: Builder, b: Builder, scope: Scope, ids: set<nat>)
    requires forall o :: o in b.meta <==> o in a.meta && !StandsFor(a.over, scope, ids, o)
    ensures Loses(a, b, scope, ids)
  {
    hide StandsFor;
  }

  lemma MetaIsBelow(b: Builder, q: Operand)
    requires MetaBelow(b) && q in b.meta
    ensures q.Reg? && q.id < b.next
  {
  }

  lemma StandsForAny(over: map<string, Operand>, scope: Scope, i: set<nat>, j: set<nat>, k: set<nat>, o: Operand)
    ensures StandsFor(over, scope, i + j + k, o) <==>
                StandsFor(over, scope, i, o) || StandsFor(over, scope, j, o) || StandsFor(over, scope, k, o)
  {
  }

  lemma LoopEndMeta(l: Loop)
    requires PartsIn(l).after < |l.b6.blocks| && LoopEnd(l.b6, PartsIn(l)).Ok? && PartsIn(l).iterable == l.c.v
    ensures LoopEnd(l.b6, PartsIn(l)).value.meta == l.b6.meta - {l.c.v}
  {
  }

  lemma ForAccepted(b: Builder, k: Option<string>, v: Option<string>, it: Expr, a: AST, els: Option<AST>, scope: Scope,
                    n: nat)
    requires InScope(b, scope, n)
    ensures var t := For(k, v, it, a, els);
            StmtDecided(b, LowerStmt(b, t), AcceptedStmt(t, scope, n), scope, Iterated(t, scope, n))
    decreases For(k, v, it, a, els), 0
  {
    hide *;
    var t := For(k, v, it, a, els);
    var inner := Bound(scope, k, v, n);
    InScopeParts(b, scope, n);
    ForIs(k, v, it, a, els, scope, n);
    ExprAccepted(b, it);
    ExprDecidedParts(b, it);
    if LowerExpr(b, it).Err? || !IsVariantOperand(LowerExpr(b, it).value.v) {
      ForFailsFirst(b, k, v, it, a, els);
    } else {
      var c := LowerExpr(b, it).value;
      BodyIs(c, k, v);
      var p, body := LoopStart(c.b, PartsOf(c.b, c.v)), BodyOf(c, k, v);
      LoopBodyScope(b, k, v, it, c, p, body, scope, n);
      StmtAccepted(body, a, inner, n + 2);
      DecidedParts(body, LowerStmt(body, a), AcceptedStmt(a, inner, n + 2), inner, Iterated(a, inner, n + 2));
      if LowerStmt(body, a).Err? {
        ForFailsInBody(b, k, v, it, a, els, c);
      } else {
        ForAfterBody(b, k, v, it, a, els, scope, n, c, p, body, LowerStmt(body, a).value);
      }
    }
    if LowerStmt(b, t).Ok? { StmtDecides(b, t); }
    IsDecided(b, LowerStmt(b, t), AcceptedStmt(t, scope, n), scope, Iterated(t, scope, n));
  }

  /** The rest of a loop whose body compiles. */
  lemma ForAfterBody(b: Builder, k: Option<string>, v: Option<string>, it: Expr, a: AST, els: Option<AST>, scope: Scope,
                     n: nat, c: Computed, p: Builder, body: Builder, b3: Builder)
    requires InScope(b, scope, n) && LowerExpr(b, it) == Ok(c) && IsVariantOperand(c.v)
    requires p == LoopStart(c.b, PartsOf(c.b, c.v)) && body == BodyOf(c, k, v) && LowerStmt(body, a) == Ok(b3)
    requires Loses(body, b3, Bound(scope, k, v, n), Iterated(a, Bound(scope, k, v, n), n + 2))
    requires StmtGrown(body, b3, false)
    ensures LowerStmt(b, For(k, v, it, a, els)).Ok?
       <==> IterableOf(it, scope) !! Iterated(a, Bound(scope, k, v, n), n + 2) && AcceptedOpt(els, scope, n)
    ensures LowerStmt(b, For(k, v, it, a, els)).Ok? ==>
              Loses(b, LowerStmt(b, For(k, v, it, a, els)).value, scope, Iterated(For(k, v, it, a, els), scope, n))
    decreases For(k, v, it, a, els), 0, 0
  {
    hide *;
    var parts, vars := PartsOf(c.b, c.v), VarsOf(p, k.Some?, v.Some?);
    var ids := Iterated(a, Bound(scope, k, v, n), n + 2);
    ForIs(k, v, it, a, els, scope, n);
    LoopBodyEnds(b, k, v, it, a, c, p, body, b3, scope, n);
    var b4 := RestoredOf(c, k, v, DropVariables(b3, vars).value);
    if LoopNext(b4, parts).Err? {
      ForFailsAfterBody(b, k, v, it, a, els, c, b3);
    } else {
      var b5 := LoopNext(b4, parts).value;
      OptIsNone(b5);
      ForReachesEnd(b, k, v, it, a, None, c, b3, b5, b5);
      var l0 := Loop(b, k, v, it, a, None, c, p, body, b3, b4, b5, b5);
      StagedIs(l0);
      LoopElseScope(l0, scope, n);
      OptAccepted(b5, els, scope, n);
      DecidedParts(b5, LowerOpt(b5, els), AcceptedOpt(els, scope, n), scope, IteratedOpt(els, scope, n));
      if LowerOpt(b5, els).Err? {
        ForFailsInElse(b, k, v, it, a, els, c, b3, b5);
      } else {
        var b6 := LowerOpt(b5, els).value;
        StmtGrownParts(b5, b6, false);
        ForReachesEnd(b, k, v, it, a, els, c, b3, b5, b6);
        var l := Loop(b, k, v, it, a, els, c, p, body, b3, b4, b5, b6);
        StagedIs(l);
        LoopEnds(l, scope, n, ids, IteratedOpt(els, scope, n));
      }
    }
  }

  lemma OptIsNone(b: Builder)
    ensures LowerOpt(b, None) == Ok(b)
  {
  }

  /** A template compiles exactly when it is accepted. */
  lemma TemplateAccepted(t: AST)
    ensures LowerTemplate(t).Ok? <==> AcceptedStmt(t, map[], 0)
  {
    assert InScope(ENTRY, map[], 0);
    hide LowerStmt, AcceptedStmt, Iterated, InScope;
    StmtAccepted(ENTRY, t, map[], 0);
  }

  /** A loop over a loop variable inside another loop over it: the outer loop's metadata is
      gone when its next iteration is to be compiled. */
  lemma SameVariableTwice(text: string)
    ensures var innermost := For(None, Some("b"), Var("v"), Raw(text), None);
            var outer := For(None, Some("a"), Var("v"), innermost, None);
            LowerTemplate(For(None, Some("v"), Var("x"), outer, None)).Err?
  {
    var innermost := For(None, Some("b"), Var("v"), Raw(text), None);
    var outer := For(None, Some("a"), Var("v"), innermost, None);
    var scope: Scope := map["v" := 1];
    assert scope["a" := 3] == Bound(scope, None, Some("a"), 2);
    assert 1 in Iterated(innermost, scope["a" := 3], 4);
    assert IterableOf(Var("v"), scope) == {1};
    assert !AcceptedStmt(outer, scope, 2);
    assert Bound(map[], None, Some("v"), 0) == scope;
    TemplateAccepted(For(None, Some("v"), Var("x"), outer, None));
  }
}
