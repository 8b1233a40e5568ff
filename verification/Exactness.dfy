/** Which of the operations that the compiler carries out itself give the interpreter's values:
    after folding all of them, but for some comparisons of doubles. */
module Exactness {
  import opened Results
  import opened Doubles
  import opened Ast
  import opened Semantics
  import opened Folding
  import opened Includes
  import opened Ir
  import opened Lowering
  import LoweringFrames
  import LoweringRuns
  import opened LoweringCorrect
  import opened LoweringAccepts

  // ---------- What the machine computes ----------

  /** The instruction emitted for two operands, on their values; None is undefined. */
  function MachineBinary(fpu: FPU, op: BinaryOp, x: Value, y: Value): Option<Value> {
    if x.Dbl? || y.Dbl? then Some(Dbl(fpu.arith(op, Converted(x), Converted(y)))) else IntOpValue(op, x, y)
  }

  function MachineUnary(op: UnaryOp, x: Value): Option<Value> {
    match (op, x)
    case (NumericPositive, _) => Some(x)
    case (NumericNegative, Int(i)) => Some(Int(Wrap64(0 - i)))
    case (BooleanNegation, Int(i)) => Some(Int(-1 - i))
    case (BooleanNegation, Bool(b)) => Some(Bool(!b))
    case _ => None
  }

  function MachineCompare(op: ComparisonOp, x: Value, y: Value): Option<bool> {
    if x.Dbl? || y.Dbl? then Some(OrderedCompare(op, Converted(x), Converted(y)))
    else if IsLogical(op) then
      if x.Bool? && y.Bool? then Some(if op.Or? then x.b || y.b else x.b && y.b) else None
    else if Signed(x).Some? && Signed(y).Some? then Some(CompareInts(op, Signed(x).value, Signed(y).value))
    else None
  }

  /** If the compiler carries out the operation at the root of e itself, the machine computes
      from the operands' values in env what the interpreter does. */
  predicate OperationExact(h: Host, e: Expr, env: Env) {
    IsNative(e) ==>
      match e
      case Bin(op, l, r) =>
        var x, y := Eval(h, l, env), Eval(h, r, env);
        x.Some? && y.Some? ==> MachineBinary(h.fpu, op, x.value, y.value) == BinaryValue(h, true, op, x.value, y.value)
      case Un(op, s) =>
        var x := Eval(h, s, env);
        x.Some? ==> MachineUnary(op, x.value) == UnaryValue(h, true, op, x.value)
      case Cmp(op, l, r) =>
        var x, y := Eval(h, l, env), Eval(h, r, env);
        x.Some? && y.Some? ==> MachineCompare(op, x.value, y.value) == CompareValue(h, true, op, x.value, y.value)
      case _ => true
  }

  ghost predicate OperationsExact(h: Host, e: Expr) {
    forall n, env :: n in Subterms(e) ==> OperationExact(h, n, env)
  }

  /** Two's complement is the one number of 64 bits that is congruent. */
  lemma WrapIsCongruent(i: int)
    ensures FitsInt64(Wrap64(i)) && (Wrap64(i) - i) % TWO_TO_64 == 0
    ensures FitsInt64(i) ==> Wrap64(i) == i
  {
    var q, r := i / TWO_TO_64, i % TWO_TO_64;
    assert i == q * TWO_TO_64 + r;
    var k := if r > INT64_MAX then -q - 1 else -q;
    assert Wrap64(i) - i == k * TWO_TO_64;
    MultipleOf(k);
  }

  lemma MultipleOf(k: int)
    ensures k * TWO_TO_64 % TWO_TO_64 == 0
  {
  }

  /** The instructions on integers: sums, differences and products are right modulo 2^64, and
      right where folding has a result; quotients and remainders are undefined where folding
      has none, and a quotient also where something remains, because the instruction is
      `exact`.  These are the instructions that folding removes. */
  lemma MachineIntegers(fpu: FPU, op: BinaryOp, a: int, b: int)
    requires FitsInt64(a) && FitsInt64(b)
    ensures var x, y := IntOpValue(op, Int(a), Int(b)), NativeBinary(fpu, op, Int(a), Int(b));
            if op.Division? || op.Modulus? then
              && (x.Some? <==> y.Some? && (op.Division? ==> TruncMod(a, b) == 0))
              && (x.Some? ==> x == y)
            else
              && x.Some? && x.value.Int? && FitsInt64(x.value.i)
              && (x.value.i - IntResult(op, a, b)) % TWO_TO_64 == 0
              && (y.Some? ==> x == y)
  {
    if !op.Division? && !op.Modulus? {
      WrapIsCongruent(IntResult(op, a, b));
    }
    hide Wrap64, TruncDiv, TruncMod;
  }

  // ---------- Doubtful comparisons ----------

  /** An environment in which every variable fails; constants do not look at it. */
  const NO_VARIABLES: Env := (x: string) => None

  predicate IsNaN(h: Host, e: Expr) {
    Eval(h, e, NO_VARIABLES) == Some(Dbl(NaN))
  }

  /** A comparison with a double that the machine decides in its own way: `!=` on a constant
      that is not a number; or a comparison of a double with a boolean, which it takes for 0 or
      -1, where the library thinks otherwise. */
  ghost predicate Doubtful(h: Host, e: Expr) {
    && e.Cmp? && IsNative(e) && !IsLogical(e.cop)
    && (TypeOf(e.left).DoubleType? || TypeOf(e.right).DoubleType?)
    && if TypeOf(e.left).BooleanType? || TypeOf(e.right).BooleanType?
       then exists env: Env :: LibraryDiffers(h, e.cop, Eval(h, e.left, env), Eval(h, e.right, env))
       else e.cop.NotEqual? && (IsNaN(h, e.left) || IsNaN(h, e.right))
  }

  predicate LibraryDiffers(h: Host, op: ComparisonOp, x: Option<Value>, y: Option<Value>) {
    && x.Some? && y.Some?
    && h.compare(op, x.value, y.value) != Some(OrderedCompare(op, Converted(x.value), Converted(y.value)))
  }

  ghost predicate NothingDoubtful(h: Host, e: Expr) {
    forall n :: n in Subterms(e) ==> !Doubtful(h, n)
  }

  // ---------- Types and values of folded expressions ----------

  lemma {:induction false} VariantTypes(e: Expr)
    ensures TypeOf(e).VariantType? ==> IsVariant(e)
  {
    match e
    case Bin(_, l, r) => VariantTypes(l); VariantTypes(r);
    case Un(_, s) => VariantTypes(s);
    case _ =>
  }

  /** The backend gives a well-typed expression the type that the parser gave it. */
  lemma {:induction false} TypedCompiledType(e: Expr)
    requires NativelyTyped(e) && Accepted(e) && !IsVariant(e)
    ensures CompiledType(e) == LlvmType(TypeOf(e))
  {
    VariantTypes(e);
    match e
    case Bin(_, l, r) => TypedCompiledType(l); TypedCompiledType(r); VariantTypes(l); VariantTypes(r);
    case Un(_, s) => TypedCompiledType(s); VariantTypes(s);
    case Cmp(_, l, r) =>
      if !IsVariant(l) && !IsVariant(r) {
        TypedCompiledType(l);
        TypedCompiledType(r);
        VariantTypes(l);
        VariantTypes(r);
      }
    case _ =>
  }

  predicate IsFolded(fpu: FPU, e: Expr) {
    Fold(fpu, e) == Ok(e)
  }

  lemma FoldedBinary(fpu: FPU, op: BinaryOp, l: Expr, r: Expr)
    requires NativelyTyped(Bin(op, l, r)) && IsFolded(fpu, Bin(op, l, r))
    ensures IsFolded(fpu, l) && IsFolded(fpu, r)
    ensures !IsVariant(l) && !IsVariant(r) ==> ExactBinary(TypeOf(l), TypeOf(r))
  {
    VariantTypes(l);
    VariantTypes(r);
    if TypeOf(l).IntegerType? { IntegersFoldToLiterals(fpu, l); }
    if TypeOf(r).IntegerType? { IntegersFoldToLiterals(fpu, r); }
  }

  lemma FoldedUnary(fpu: FPU, op: UnaryOp, s: Expr)
    requires NativelyTyped(Un(op, s)) && IsFolded(fpu, Un(op, s)) && Accepted(Un(op, s))
    ensures IsFolded(fpu, s)
    ensures !IsVariant(s) ==> ExactUnary(op, TypeOf(s))
  {
    VariantTypes(s);
    if TypeOf(s).IntegerType? { IntegersFoldToLiterals(fpu, s); }
    if !IsVariant(s) { TypedCompiledType(s); }
  }

  /** A folded, well-typed expression that is no variant has a value of its type; a number
      always has one. */
  lemma {:induction false} NativeValue(h: Host, e: Expr, env: Env)
    requires NativelyTyped(e) && IsFolded(h.fpu, e) && !IsVariant(e)
    ensures !TypeOf(e).VariantType?
    ensures Eval(h, e, env).Some? ==> HasType(Eval(h, e, env).value, TypeOf(e))
    ensures IsNumeric(TypeOf(e)) ==> Eval(h, e, env).Some?
    ensures TypeOf(e).IntegerType? ==> e.IntLit?
    ensures TypeOf(e).StringType? ==> e.StrLit?
    decreases e
  {
    VariantTypes(e);
    if TypeOf(e).IntegerType? {
      IntegersFoldToLiterals(h.fpu, e);
    }
    match e
    case Bin(_, l, r) => NativeValue(h, l, env); NativeValue(h, r, env);
    case Un(_, s) => NativeValue(h, s, env);
    case _ =>
  }

  /** Numbers that are no variants are constants. */
  lemma {:induction false} NumbersAreConstant(h: Host, e: Expr, env: Env)
    requires NativelyTyped(e) && !IsVariant(e) && IsNumeric(TypeOf(e))
    ensures Eval(h, e, env) == Eval(h, e, NO_VARIABLES)
    decreases e
  {
    match e
    case Bin(_, l, r) =>
      VariantTypes(l);
      VariantTypes(r);
      NumbersAreConstant(h, l, env);
      NumbersAreConstant(h, r, env);
    case Un(_, s) =>
      VariantTypes(s);
      NumbersAreConstant(h, s, env);
    case _ =>
  }

  // ---------- Exactly the doubtful comparisons are wrong ----------

  /** A folded comparison that the backend accepts has operands it can compare. */
  lemma FoldedComparison(fpu: FPU, op: ComparisonOp, l: Expr, r: Expr)
    requires NativelyTyped(Cmp(op, l, r)) && IsFolded(fpu, Cmp(op, l, r)) && Accepted(Cmp(op, l, r))
    ensures IsFolded(fpu, l) && IsFolded(fpu, r)
    ensures !IsVariant(l) && !IsVariant(r) ==> ComparableTypes(op, TypeOf(l), TypeOf(r))
  {
    assert Accepted(l) && Accepted(r) && NativelyTyped(l) && NativelyTyped(r);
    FoldedOperands(fpu, op, l, r);
    hide Fold, IsFolded;
    VariantTypes(l);
    VariantTypes(r);
    if !IsVariant(l) && !IsVariant(r) {
      TypedCompiledType(l);
      TypedCompiledType(r);
    }
  }

  lemma FoldedOperands(fpu: FPU, op: ComparisonOp, l: Expr, r: Expr)
    requires IsFolded(fpu, Cmp(op, l, r))
    ensures IsFolded(fpu, l) && IsFolded(fpu, r)
  {
  }

  /** On given values. */
  lemma ComparisonDecided(h: Host, op: ComparisonOp, lt: ValueType, rt: ValueType, x: Value, y: Value)
    requires ComparableTypes(op, lt, rt) && HasType(x, lt) && HasType(y, rt)
    ensures InOrder(h, op, Some(x), Some(y)) <==> MachineCompare(op, x, y) == CompareValue(h, true, op, x, y)
    ensures MachineCompare(op, x, y) == CompareValue(h, true, op, x, y)
       <==> (x.Dbl? || y.Dbl? ==>
               if x.Bool? || y.Bool? then !LibraryDiffers(h, op, Some(x), Some(y))
               else op.NotEqual? ==> x != Dbl(NaN) && y != Dbl(NaN))
  {
  }

  /** The code of a comparison computes MachineCompare, doubtful or not. */
  lemma ComparisonRuns(m: Machine, b: Builder, op: ComparisonOp, l: Operand, r: Operand, s: State,
                       x: Value, y: Value, lt: ValueType, rt: ValueType, track: LoweringRuns.Tracked)
    returns (s': State)
    requires LoweringFrames.Open(b) && NativeComparison(b, op, l, r).Ok?
    requires LoweringRuns.Within(NativeComparison(b, op, l, r).value.b, m)
    requires LoweringRuns.Operands(b, s, l, x, r, y, track) && ComparableTypes(op, lt, rt)
    requires TypeOfOperand(l) == LlvmType(lt) && HasType(x, lt) && TypeOfOperand(r) == LlvmType(rt) && HasType(y, rt)
    ensures LoweringRuns.Computes(m, b, s, NativeComparison(b, op, l, r).value, s',
                                  LoweringRuns.BoolOf(MachineCompare(op, x, y)), track)
  {
    ComparisonDecided(m.h, op, lt, rt, x, y);
    hide NativeComparison, CompareValue, OrderedCompare, Converted, LoweringRuns.Computes, LoweringRuns.Operands,
         LoweringRuns.Within, LoweringFrames.Open;
    if lt.DoubleType? || rt.DoubleType? {
      s' := DoubleComparisonRuns(m, b, op, l, r, s, x, y, lt, rt, track);
    } else {
      s' := IntegerComparisonRuns(m, b, op, l, r, s, x, y, lt, track);
    }
  }

  /** The machine decides a comparison as the interpreter does, on all values its operands can
      have, if and only if it is not doubtful. */
  lemma ComparisonExactly(h: Host, op: ComparisonOp, l: Expr, r: Expr)
    requires NativelyTyped(Cmp(op, l, r)) && IsFolded(h.fpu, Cmp(op, l, r)) && Accepted(Cmp(op, l, r))
    ensures (forall env: Env :: OperationExact(h, Cmp(op, l, r), env)) <==> !Doubtful(h, Cmp(op, l, r))
    ensures !IsVariant(l) && !IsVariant(r) ==> (!Doubtful(h, Cmp(op, l, r)) <==> ExactComparison(h, op, l, r))
  {
    var e := Cmp(op, l, r);
    FoldedComparison(h.fpu, op, l, r);
    if !IsVariant(l) && !IsVariant(r) {
      forall env: Env
        ensures OperationExact(h, e, env) <==> InOrder(h, op, Eval(h, l, env), Eval(h, r, env))
        ensures OperationExact(h, e, env) <==> !DiffersIn(h, op, l, r, env)
      {
        ComparisonIn(h, op, l, r, env);
      }
      DoubtfulMeans(h, op, l, r);
      hide OperationExact, Doubtful, InOrder, ComparableTypes, DiffersIn;
      assert (forall env: Env :: OperationExact(h, e, env)) <==> (forall env: Env :: !DiffersIn(h, op, l, r, env));
    }
  }

  /** In one environment. */
  predicate DiffersIn(h: Host, op: ComparisonOp, l: Expr, r: Expr, env: Env) {
    var x, y := Eval(h, l, env), Eval(h, r, env);
    && x.Some? && y.Some? && (x.value.Dbl? || y.value.Dbl?)
    && if x.value.Bool? || y.value.Bool? then LibraryDiffers(h, op, x, y)
       else op.NotEqual? && (x.value == Dbl(NaN) || y.value == Dbl(NaN))
  }

  lemma ComparisonIn(h: Host, op: ComparisonOp, l: Expr, r: Expr, env: Env)
    requires NativelyTyped(Cmp(op, l, r)) && IsFolded(h.fpu, l) && IsFolded(h.fpu, r) && !IsVariant(l) && !IsVariant(r)
    requires ComparableTypes(op, TypeOf(l), TypeOf(r))
    ensures OperationExact(h, Cmp(op, l, r), env) <==> InOrder(h, op, Eval(h, l, env), Eval(h, r, env))
    ensures OperationExact(h, Cmp(op, l, r), env) <==> !DiffersIn(h, op, l, r, env)
  {
    NativeValue(h, l, env);
    NativeValue(h, r, env);
    var x, y := Eval(h, l, env), Eval(h, r, env);
    hide IsFolded, NativelyTyped, CompareValue, MachineCompare, OrderedCompare, Converted;
    if x.Some? && y.Some? {
      ComparisonDecided(h, op, TypeOf(l), TypeOf(r), x.value, y.value);
    }
  }

  /** Both operands, in any environment. */
  lemma NativeValues(h: Host, e: Expr)
    requires NativelyTyped(e) && IsFolded(h.fpu, e) && !IsVariant(e)
    ensures forall env: Env :: Eval(h, e, env).Some? ==> HasType(Eval(h, e, env).value, TypeOf(e))
    ensures IsNumeric(TypeOf(e)) ==>
                forall env: Env :: Eval(h, e, env) == Eval(h, e, NO_VARIABLES) && Eval(h, e, env).Some?
  {
    forall env: Env
      ensures Eval(h, e, env).Some? ==> HasType(Eval(h, e, env).value, TypeOf(e))
      ensures IsNumeric(TypeOf(e)) ==> Eval(h, e, env) == Eval(h, e, NO_VARIABLES) && Eval(h, e, env).Some?
    {
      NativeValue(h, e, env);
      if IsNumeric(TypeOf(e)) { NumbersAreConstant(h, e, env); }
    }
  }

  lemma DoubtfulMeans(h: Host, op: ComparisonOp, l: Expr, r: Expr)
    requires NativelyTyped(Cmp(op, l, r)) && IsFolded(h.fpu, l) && IsFolded(h.fpu, r) && !IsVariant(l) && !IsVariant(r)
    requires ComparableTypes(op, TypeOf(l), TypeOf(r))
    ensures Doubtful(h, Cmp(op, l, r)) <==> exists env: Env :: DiffersIn(h, op, l, r, env)
  {
    var lt, rt := TypeOf(l), TypeOf(r);
    assert NativelyTyped(l) && NativelyTyped(r);
    hide NativelyTyped, IsFolded, TypeOf, IsVariant, Eval, OrderedCompare, Converted, IsNaN, LibraryDiffers;
    NativeValues(h, l);
    NativeValues(h, r);
    if lt.BooleanType? || rt.BooleanType? {
      forall env: Env
        ensures DiffersIn(h, op, l, r, env)
           <==> !IsLogical(op) && (lt.DoubleType? || rt.DoubleType?)
                && LibraryDiffers(h, op, Eval(h, l, env), Eval(h, r, env))
      {
        BooleanDiffers(h, op, l, r, env);
      }
      assert Doubtful(h, Cmp(op, l, r)) <==>
        (!IsLogical(op) && (lt.DoubleType? || rt.DoubleType?)
         && exists env: Env :: LibraryDiffers(h, op, Eval(h, l, env), Eval(h, r, env)));
    } else {
      forall env: Env
        ensures DiffersIn(h, op, l, r, env) <==> Doubtful(h, Cmp(op, l, r))
      {
        NumbersDiffer(h, op, l, r, env);
      }
      assert DiffersIn(h, op, l, r, NO_VARIABLES) <==> Doubtful(h, Cmp(op, l, r));
    }
  }

  lemma BooleanDiffers(h: Host, op: ComparisonOp, l: Expr, r: Expr, env: Env)
    requires ComparableTypes(op, TypeOf(l), TypeOf(r)) && (TypeOf(l).BooleanType? || TypeOf(r).BooleanType?)
    requires Eval(h, l, env).Some? ==> HasType(Eval(h, l, env).value, TypeOf(l))
    requires Eval(h, r, env).Some? ==> HasType(Eval(h, r, env).value, TypeOf(r))
    ensures DiffersIn(h, op, l, r, env)
       <==> !IsLogical(op) && (TypeOf(l).DoubleType? || TypeOf(r).DoubleType?)
            && LibraryDiffers(h, op, Eval(h, l, env), Eval(h, r, env))
  {
    hide Eval, OrderedCompare, Converted, TypeOf;
  }

  lemma NumbersDiffer(h: Host, op: ComparisonOp, l: Expr, r: Expr, env: Env)
    requires ComparableTypes(op, TypeOf(l), TypeOf(r)) && !TypeOf(l).BooleanType? && !TypeOf(r).BooleanType?
    requires !IsVariant(l) && !IsVariant(r)
    requires Eval(h, l, env).Some? ==> HasType(Eval(h, l, env).value, TypeOf(l))
    requires Eval(h, r, env).Some? ==> HasType(Eval(h, r, env).value, TypeOf(r))
    requires Eval(h, l, env) == Eval(h, l, NO_VARIABLES) && Eval(h, r, env) == Eval(h, r, NO_VARIABLES)
    requires Eval(h, l, env).Some? && Eval(h, r, env).Some?
    ensures DiffersIn(h, op, l, r, env) <==> Doubtful(h, Cmp(op, l, r))
  {
    hide Eval, TypeOf, IsVariant, LibraryDiffers;
  }

  /** After folding the machine computes every other operation as the interpreter does. */
  lemma FoldedOperation(h: Host, e: Expr, env: Env)
    requires NativelyTyped(e) && IsFolded(h.fpu, e) && Accepted(e) && !e.Cmp?
    ensures OperationExact(h, e, env)
  {
    match e
    case Bin(op, l, r) =>
      FoldedBinary(h.fpu, op, l, r);
      if !IsVariant(l) && !IsVariant(r) {
        NativeValue(h, l, env);
        NativeValue(h, r, env);
      }
    case Un(op, s) =>
      FoldedUnary(h.fpu, op, s);
      if !IsVariant(s) { NativeValue(h, s, env); }
    case _ =>
  }

  /** The parts of a folded expression. */
  lemma {:induction false} SubtermsFolded(h: Host, e: Expr, n: Expr)
    requires NativelyTyped(e) && IsFolded(h.fpu, e) && Accepted(e) && n in Subterms(e)
    ensures NativelyTyped(n) && IsFolded(h.fpu, n) && Accepted(n)
    decreases e
  {
    if n != e {
      match e
      case Attr(b, _) => SubtermsFolded(h, b, n);
      case Call(_, args) => AllSubtermsFolded(h, args, n);
      case Bin(op, l, r) =>
        FoldedBinary(h.fpu, op, l, r);
        if n in Subterms(l) { SubtermsFolded(h, l, n); } else { SubtermsFolded(h, r, n); }
      case Un(op, s) =>
        FoldedUnary(h.fpu, op, s);
        SubtermsFolded(h, s, n);
      case Cmp(op, l, r) =>
        FoldedComparison(h.fpu, op, l, r);
        if n in Subterms(l) { SubtermsFolded(h, l, n); } else { SubtermsFolded(h, r, n); }
      case _ =>
    }
  }

  lemma {:induction false} AllSubtermsFolded(h: Host, es: seq<Expr>, n: Expr)
    requires NativelyTypedAll(es) && FoldAll(h.fpu, es) == Ok(es) && AcceptedAll(es) && n in SubtermsAll(es)
    ensures NativelyTyped(n) && IsFolded(h.fpu, n) && Accepted(n)
    decreases es
  {
    if n in Subterms(es[0]) { SubtermsFolded(h, es[0], n); } else { AllSubtermsFolded(h, es[1..], n); }
  }

  /** In a well-typed expression, folded and accepted by the backend, all native operations
      compute the interpreter's values in all environments if and only if no comparison in it
      is doubtful. */
  lemma FoldedIsExact(h: Host, e: Expr)
    requires NativelyTyped(e) && IsFolded(h.fpu, e) && Accepted(e)
    ensures OperationsExact(h, e) <==> NothingDoubtful(h, e)
  {
    hide OperationExact, Doubtful, NativelyTyped, IsFolded, Accepted, Subterms;
    forall n | n in Subterms(e)
      ensures (forall env: Env :: OperationExact(h, n, env)) <==> !Doubtful(h, n)
    {
      SubtermsFolded(h, e, n);
      if n.Cmp? {
        ComparisonExactly(h, n.cop, n.left, n.right);
      } else {
        NotDoubtful(h, n);
        forall env: Env
          ensures OperationExact(h, n, env)
        {
          FoldedOperation(h, n, env);
        }
      }
    }
    if OperationsExact(h, e) {
      forall n | n in Subterms(e)
        ensures !Doubtful(h, n)
      {
        assert forall env: Env :: OperationExact(h, n, env);
      }
    }
  }

  lemma NotDoubtful(h: Host, e: Expr)
    requires !e.Cmp?
    ensures !Doubtful(h, e)
  {
  }

  /** Such an expression is what the correctness of compiled code asks for. */
  lemma {:induction false} FoldedIsRunnable(h: Host, e: Expr)
    requires NativelyTyped(e) && IsFolded(h.fpu, e) && Accepted(e) && NothingDoubtful(h, e)
    ensures Runnable(h, e)
    decreases e
  {
    hide Doubtful, OperationExact;
    assert e in Subterms(e);
    match e
    case Attr(b, _) => FoldedIsRunnable(h, b);
    case Call(_, args) => FoldedAreRunnable(h, args);
    case Bin(op, l, r) =>
      FoldedBinary(h.fpu, op, l, r);
      FoldedIsRunnable(h, l);
      FoldedIsRunnable(h, r);
    case Un(op, s) =>
      FoldedUnary(h.fpu, op, s);
      FoldedIsRunnable(h, s);
    case Cmp(op, l, r) =>
      FoldedComparison(h.fpu, op, l, r);
      FoldedIsRunnable(h, l);
      FoldedIsRunnable(h, r);
      ComparisonExactly(h, op, l, r);
    case _ =>
  }

  lemma {:induction false} FoldedAreRunnable(h: Host, es: seq<Expr>)
    requires NativelyTypedAll(es) && FoldAll(h.fpu, es) == Ok(es) && AcceptedAll(es)
    requires forall n :: n in SubtermsAll(es) ==> !Doubtful(h, n)
    ensures RunnableAll(h, es)
    decreases es
  {
    if es != [] {
      FoldedIsRunnable(h, es[0]);
      FoldedAreRunnable(h, es[1..]);
    }
  }
}
