/** The compiled template prints what the template renders: running the lowered function from
    any point of the tree appends exactly the rendered text, on every path through the graph. */
module LoweringCorrect {
  import opened Results
  import opened Doubles
  import opened Ast
  import opened Semantics
  import opened Ir
  import opened Lowering
  import opened LoweringFrames
  import opened LoweringRuns
  import opened LoweringStorage

  // ---------- Operations without variants ----------

  predicate IsNumeric(t: ValueType) {
    t.IntegerType? || t.DoubleType?
  }

  /** Where the machine's arithmetic is the interpreter's: one operand is a double. */
  predicate ExactBinary(l: ValueType, r: ValueType) {
    IsNumeric(l) && IsNumeric(r) && (l.DoubleType? || r.DoubleType?)
  }

  predicate ExactUnary(op: UnaryOp, t: ValueType) {
    match op
    case NumericPositive => IsNumeric(t)
    case NumericNegative => false
    case BooleanNegation => t.BooleanType?
  }

  predicate ConvertsToDouble(t: ValueType) {
    IsNumeric(t) || t.BooleanType?
  }

  /** The comparisons that compile to one meaningful instruction. */
  predicate ComparableTypes(op: ComparisonOp, l: ValueType, r: ValueType) {
    if IsLogical(op) then l.BooleanType? && r.BooleanType?
    else if l.DoubleType? || r.DoubleType? then ConvertsToDouble(l) && ConvertsToDouble(r)
    else if l.BooleanType? && r.BooleanType? then op.Equal? || op.NotEqual?
    else l.IntegerType? && r.IntegerType?
  }

  /** The ordered comparison of doubles decides two values as the interpreter does. */
  predicate InOrder(h: Host, op: ComparisonOp, x: Option<Value>, y: Option<Value>) {
    x.Some? && y.Some? && (x.value.Dbl? || y.value.Dbl?) ==>
      CompareValue(h, true, op, x.value, y.value) == Some(OrderedCompare(op, Converted(x.value), Converted(y.value)))
  }

  ghost predicate ExactComparison(h: Host, op: ComparisonOp, l: Expr, r: Expr) {
    && ComparableTypes(op, TypeOf(l), TypeOf(r))
    && forall env: Env :: InOrder(h, op, Eval(h, l, env), Eval(h, r, env))
  }

  /** Every operation that the compiler carries out itself computes the interpreter's value;
      Exactness.FoldedIsExact says when. */
  ghost predicate Runnable(h: Host, e: Expr) {
    match e
    case Attr(b, _) => Runnable(h, b)
    case Call(_, args) => RunnableAll(h, args)
    case Bin(_, l, r) => Runnable(h, l) && Runnable(h, r) && (IsVariant(e) || ExactBinary(TypeOf(l), TypeOf(r)))
    case Un(op, s) => Runnable(h, s) && (IsVariant(s) || ExactUnary(op, TypeOf(s)))
    case Cmp(op, l, r) =>
      Runnable(h, l) && Runnable(h, r) && (IsVariant(l) || IsVariant(r) || ExactComparison(h, op, l, r))
    case _ => true
  }

  ghost predicate RunnableAll(h: Host, es: seq<Expr>) {
    if es == [] then true else Runnable(h, es[0]) && RunnableAll(h, es[1..])
  }

  function LlvmType(t: ValueType): Type {
    match t
    case DoubleType => DoubleTy
    case IntegerType => I64
    case BooleanType => I1
    case StringType => StringPtr
    case VariantType => VariantPtr
  }

  predicate HasType(x: Value, t: ValueType) {
    match t
    case DoubleType => x.Dbl?
    case IntegerType => x.Int?
    case BooleanType => x.Bool?
    case StringType => x.Str?
    case VariantType => true
  }

  lemma NativeStoreRuns(m: Machine, b: Builder, i: Instr, s: State, ty: Type, x: Value, track: Tracked)
    returns (s': State)
    requires Open(b) && Within(Emit(Fresh(b, 1), i), m) && Alive(b, s, track) && !ty.VariantPtr?
    requires Exec(m, i, s) == Some(Store(s, b.next, x, None))
    ensures Computes(m, b, s, Computed(Reg(b.next, ty), Emit(Fresh(b, 1), i)), s', Some(x), track)
    ensures s'.dangling == s.dangling
  {
    hide *;
    var b' := Emit(Fresh(b, 1), i);
    s' := Store(s, b.next, x, None);
    StoreRuns(m, b, 1, i, s, b.next, x, None);
    EmitCounts(b, 1, i);
    AliveStore(b, b', s, b.next, x, None, track);
    NativeIsProper(s', b.next, ty, track);
    IsComputed(m, b, s, Computed(Reg(b.next, ty), b'), s', x, track);
  }

  lemma NativeIsProper(s: State, id: nat, ty: Type, track: Tracked)
    requires !ty.VariantPtr? && RootOf(s, Reg(id, ty)).None?
    ensures Proper(s, Reg(id, ty), track)
  {
  }

  lemma NativeStage(m: Machine, b: Builder, i: Instr)
    requires Open(b)
    ensures var b' := Emit(Fresh(b, 1), i);
            Open(b') && b'.next == b.next + 1 && (Within(b', m) ==> Within(b, m))
  {
    if Within(Emit(Fresh(b, 1), i), m) {
      WithinEmit(Fresh(b, 1), i, m);
    }
  }

  lemma ConvertRuns(m: Machine, b: Builder, v: Operand, s: State, x: Value, t: ValueType, track: Tracked)
    returns (s': State)
    requires Open(b) && Convert(b, v).Ok? && Within(Convert(b, v).value.b, m)
    requires Operands(b, s, v, x, v, x, track) && TypeOfOperand(v) == LlvmType(t) && ConvertsToDouble(t)
    requires HasType(x, t)
    ensures Computes(m, b, s, Convert(b, v).value, s', Some(Dbl(Converted(x))), track) && s'.dangling == s.dangling
    ensures var c := Convert(b, v).value;
            Open(c.b) && Within(b, m) && b.next <= c.b.next && OperandBelow(c.v, c.b.next)
              && CountsKept(b, c.b)
  {
    if t.DoubleType? {
      s' := s;
      ComputesSelf(m, b, s, Computed(v, b), track);
    } else {
      var i := SIToFP(b.next, v);
      assert Exec(m, i, s) == Some(Store(s, b.next, Dbl(Converted(x)), None));
      NativeStage(m, b, i);
      hide Exec, Reaches, Within, Open, Emit, Computes;
      s' := NativeStoreRuns(m, b, i, s, DoubleTy, Dbl(Converted(x)), track);
      EmitCounts(b, 1, i);
    }
  }

  /** Both operands of a floating-point instruction. */
  lemma ConvertBothRuns(m: Machine, b: Builder, l: Operand, r: Operand, s: State, x: Value, y: Value, lt: ValueType,
                        rt: ValueType, track: Tracked)
    returns (s': State)
    requires Open(b) && Convert(b, l).Ok? && Convert(Convert(b, l).value.b, r).Ok?
    requires Within(Convert(Convert(b, l).value.b, r).value.b, m) && Operands(b, s, l, x, r, y, track)
    requires TypeOfOperand(l) == LlvmType(lt) && ConvertsToDouble(lt) && HasType(x, lt)
    requires TypeOfOperand(r) == LlvmType(rt) && ConvertsToDouble(rt) && HasType(y, rt)
    ensures var cl := Convert(b, l).value;
            var cr := Convert(cl.b, r).value;
            && Open(cr.b) && b.next <= cr.b.next
            && Reaches(m, End(b, s), End(cr.b, s')) && s'.out == s.out && AgreeBelow(s, s', b.next)
            && Operands(cr.b, s', cl.v, Dbl(Converted(x)), cr.v, Dbl(Converted(y)), track)
            && s'.dangling == s.dangling
  {
    hide *;
    var cl := Convert(b, l).value;
    var cr := Convert(cl.b, r).value;
    var dx, dy := Dbl(Converted(x)), Dbl(Converted(y));
    PairSplit(b, s, l, x, r, y, track);
    ConvertStage(m, b, l);
    ConvertStage(m, cl.b, r);
    var s1 := ConvertRuns(m, b, l, s, x, lt, track);
    ComputedParts(m, b, s, cl, s1, dx, track);
    OperandsKept(b, cl.b, s, s1, r, y, track);
    s' := ConvertRuns(m, cl.b, r, s1, y, rt, track);
    ComputedParts(m, cl.b, s1, cr, s', dy, track);
    IsOperand(cl.b, s1, cl.v, dx, track);
    OperandsKept(cl.b, cr.b, s1, s', cl.v, dx, track);
    IsOperand(cr.b, s', cr.v, dy, track);
    PairJoin(cr.b, s', cl.v, dx, cr.v, dy, track);
    ReachesTrans(m, End(b, s), End(cl.b, s1), End(cr.b, s'));
    AgreeTrans(s, s1, s', b.next, cl.b.next);
  }

  lemma PairSplit(b: Builder, s: State, l: Operand, x: Value, r: Operand, y: Value, track: Tracked)
    requires Operands(b, s, l, x, r, y, track)
    ensures Operands(b, s, l, x, l, x, track) && Operands(b, s, r, y, r, y, track)
  {
  }

  lemma PairJoin(b: Builder, s: State, l: Operand, x: Value, r: Operand, y: Value, track: Tracked)
    requires Operands(b, s, l, x, l, x, track) && Operands(b, s, r, y, r, y, track)
    ensures Operands(b, s, l, x, r, y, track)
  {
  }

  lemma ConvertStage(m: Machine, b: Builder, v: Operand)
    requires Open(b) && Convert(b, v).Ok?
    ensures var b' := Convert(b, v).value.b; Open(b') && (Within(b', m) ==> Within(b, m))
  {
    if !TypeOfOperand(v).DoubleTy? {
      NativeStage(m, b, SIToFP(b.next, v));
    }
  }

  lemma NativeBinaryRuns(m: Machine, b: Builder, op: BinaryOp, l: Operand, r: Operand, s: State,
                         x: Value, y: Value, lt: ValueType, rt: ValueType, track: Tracked)
    returns (s': State)
    requires Open(b) && NativeBinaryOp(b, op, l, r).Ok? && Within(NativeBinaryOp(b, op, l, r).value.b, m)
    requires Operands(b, s, l, x, r, y, track) && ExactBinary(lt, rt)
    requires TypeOfOperand(l) == LlvmType(lt) && HasType(x, lt) && TypeOfOperand(r) == LlvmType(rt) && HasType(y, rt)
    ensures Computes(m, b, s, NativeBinaryOp(b, op, l, r).value, s', BinaryValue(m.h, true, op, x, y), track)
    ensures s'.dangling == s.dangling
    ensures BinaryValue(m.h, true, op, x, y).Some? && BinaryValue(m.h, true, op, x, y).value.Dbl?
    ensures TypeOfOperand(NativeBinaryOp(b, op, l, r).value.v).DoubleTy?
  {
    hide *;
    DoubleOperation(m, b, op, l, r, x, y, lt, rt);
    var cl := Convert(b, l).value;
    var cr := Convert(cl.b, r).value;
    var i := FloatOp(cr.b.next, op, cl.v, cr.v);
    var c := NativeBinaryOp(b, op, l, r).value;
    var z := Dbl(m.h.fpu.arith(op, AsDouble(x), AsDouble(y)));
    ConvertStage(m, b, l);
    ConvertStage(m, cl.b, r);
    NativeStage(m, cr.b, i);
    var s1 := ConvertBothRuns(m, b, l, r, s, x, y, lt, rt, track);
    OperandsParts(cr.b, s1, cl.v, Dbl(Converted(x)), cr.v, Dbl(Converted(y)), track);
    FloatExec(m, i, s1, AsDouble(x), AsDouble(y));
    s' := NativeStoreRuns(m, cr.b, i, s1, DoubleTy, z, track);
    ComputesAfter(m, b, s, cr.b, s1, c, s', Some(z), track);
  }

  /** One operand is a double, so both are converted. */
  lemma DoubleOperation(m: Machine, b: Builder, op: BinaryOp, l: Operand, r: Operand, x: Value, y: Value, lt: ValueType,
                        rt: ValueType)
    requires NativeBinaryOp(b, op, l, r).Ok? && ExactBinary(lt, rt)
    requires TypeOfOperand(l) == LlvmType(lt) && HasType(x, lt) && TypeOfOperand(r) == LlvmType(rt) && HasType(y, rt)
    ensures ConvertsToDouble(lt) && ConvertsToDouble(rt) && IsNumber(x) && IsNumber(y)
    ensures Converted(x) == AsDouble(x) && Converted(y) == AsDouble(y)
    ensures Convert(b, l).Ok? && Convert(Convert(b, l).value.b, r).Ok?
    ensures var cl := Convert(b, l).value;
            var cr := Convert(cl.b, r).value;
            NativeBinaryOp(b, op, l, r)
            == Ok(Computed(Reg(cr.b.next, DoubleTy), Emit(Fresh(cr.b, 1), FloatOp(cr.b.next, op, cl.v, cr.v))))
    ensures BinaryValue(m.h, true, op, x, y) == Some(Dbl(m.h.fpu.arith(op, AsDouble(x), AsDouble(y))))
    ensures forall id :: TypeOfOperand(Reg(id, DoubleTy)).DoubleTy?
  {
    hide Emit;
  }

  lemma FloatExec(m: Machine, i: Instr, s: State, x: Double, y: Double)
    requires i.FloatOp? && ValueOf(s, i.l) == Some(Dbl(x)) && ValueOf(s, i.r) == Some(Dbl(y))
    ensures Exec(m, i, s) == Some(Store(s, i.dst, Dbl(m.h.fpu.arith(i.bop, x, y)), None))
  {
  }

  lemma NativeUnaryRuns(m: Machine, b: Builder, op: UnaryOp, v: Operand, s: State, x: Value, t: ValueType,
                        track: Tracked)
    returns (s': State)
    requires Open(b) && NativeUnaryOp(b, op, v).Ok? && Within(NativeUnaryOp(b, op, v).value.b, m)
    requires Operands(b, s, v, x, v, x, track) && ExactUnary(op, t) && TypeOfOperand(v) == LlvmType(t) && HasType(x, t)
    ensures Computes(m, b, s, NativeUnaryOp(b, op, v).value, s', UnaryValue(m.h, true, op, x), track)
    ensures s'.dangling == s.dangling
    ensures UnaryValue(m.h, true, op, x).Some? && HasType(UnaryValue(m.h, true, op, x).value, t)
    ensures TypeOfOperand(NativeUnaryOp(b, op, v).value.v) == LlvmType(t)
  {
    if op.NumericPositive? {
      s' := s;
      ComputesSelf(m, b, s, Computed(v, b), track);
    } else {
      var i := Not(b.next, v);
      assert Exec(m, i, s) == Some(Store(s, b.next, Bool(!x.b), None));
      assert UnaryValue(m.h, true, op, x) == Some(Bool(!x.b));
      hide Exec, Reaches, Within, Open, Emit, Computes, UnaryValue;
      s' := NativeStoreRuns(m, b, i, s, I1, Bool(!x.b), track);
    }
  }

  /** Two booleans or two integers: one instruction. */
  lemma IntegerComparisonRuns(m: Machine, b: Builder, op: ComparisonOp, l: Operand, r: Operand, s: State,
                              x: Value, y: Value, t: ValueType, track: Tracked)
    returns (s': State)
    requires Open(b) && NativeComparison(b, op, l, r).Ok? && Within(NativeComparison(b, op, l, r).value.b, m)
    requires Operands(b, s, l, x, r, y, track) && ComparableTypes(op, t, t) && (t.IntegerType? || t.BooleanType?)
    requires TypeOfOperand(l) == TypeOfOperand(r) == LlvmType(t) && HasType(x, t) && HasType(y, t)
    ensures Computes(m, b, s, NativeComparison(b, op, l, r).value, s', BoolOf(CompareValue(m.h, true, op, x, y)), track)
    ensures s'.dangling == s.dangling
    ensures TypeOfOperand(NativeComparison(b, op, l, r).value.v).I1?
  {
    var i := if IsLogical(op) then Logic(b.next, op, l, r) else ICmp(b.next, op, l, r);
    var z := CompareValue(m.h, true, op, x, y).value;
    assert Exec(m, i, s) == Some(Store(s, b.next, Bool(z), None));
    assert NativeComparison(b, op, l, r) == Ok(Computed(Reg(b.next, I1), Emit(Fresh(b, 1), i)));
    assert BoolOf(CompareValue(m.h, true, op, x, y)) == Some(Bool(z));
    hide Exec, Reaches, Within, Open, Emit, Computes, NativeComparison, CompareValue, BoolOf;
    s' := NativeStoreRuns(m, b, i, s, I1, Bool(z), track);
  }

  /** One operand is a double: the other one is converted, then they are compared in order. */
  lemma DoubleComparisonRuns(m: Machine, b: Builder, op: ComparisonOp, l: Operand, r: Operand, s: State,
                             x: Value, y: Value, lt: ValueType, rt: ValueType, track: Tracked)
    returns (s': State)
    requires Open(b) && NativeComparison(b, op, l, r).Ok? && Within(NativeComparison(b, op, l, r).value.b, m)
    requires Operands(b, s, l, x, r, y, track) && !IsLogical(op)
    requires (lt.DoubleType? || rt.DoubleType?) && ConvertsToDouble(lt) && ConvertsToDouble(rt)
    requires TypeOfOperand(l) == LlvmType(lt) && HasType(x, lt) && TypeOfOperand(r) == LlvmType(rt) && HasType(y, rt)
    ensures Computes(m, b, s, NativeComparison(b, op, l, r).value, s',
                     Some(Bool(OrderedCompare(op, Converted(x), Converted(y)))), track)
    ensures s'.dangling == s.dangling
    ensures TypeOfOperand(NativeComparison(b, op, l, r).value.v).I1?
  {
    var cl := Convert(b, l).value;
    var cr := Convert(cl.b, r).value;
    var i := FCmp(cr.b.next, op, cl.v, cr.v);
    var dx, dy := Converted(x), Converted(y);
    var z := Bool(OrderedCompare(op, dx, dy));
    var c := NativeComparison(b, op, l, r).value;
    assert c == Computed(Reg(cr.b.next, I1), Emit(Fresh(cr.b, 1), i));
    hide Exec, Reaches, Within, Open, Emit, Computes, Convert, NativeComparison, Operands, AgreeBelow, Alive,
         OrderedCompare,
         Converted;
    ConvertStage(m, b, l);
    ConvertStage(m, cl.b, r);
    NativeStage(m, cr.b, i);
    var s1 := ConvertBothRuns(m, b, l, r, s, x, y, lt, rt, track);
    OperandsParts(cr.b, s1, cl.v, Dbl(dx), cr.v, Dbl(dy), track);
    FCmpExec(m, i, s1, dx, dy);
    s' := NativeStoreRuns(m, cr.b, i, s1, I1, z, track);
    ComputesAfter(m, b, s, cr.b, s1, c, s', Some(z), track);
  }

  lemma FCmpExec(m: Machine, i: Instr, s: State, x: Double, y: Double)
    requires i.FCmp? && ValueOf(s, i.l) == Some(Dbl(x)) && ValueOf(s, i.r) == Some(Dbl(y))
    ensures Exec(m, i, s) == Some(Store(s, i.dst, Bool(OrderedCompare(i.cop, x, y)), None))
  {
  }

  /** The machine and C++ compare doubles alike, except for `!=` on NaN. */
  lemma NotEqualDiffersOnNaN(op: ComparisonOp, a: Double, b: Double)
    ensures OrderedCompare(op, a, b) != CompareDoubles(op, a, b) <==> op.NotEqual? && (a == NaN || b == NaN)
  {
  }

  lemma NativeComparisonRuns(m: Machine, b: Builder, op: ComparisonOp, l: Operand, r: Operand, s: State,
                             x: Value, y: Value, lt: ValueType, rt: ValueType, track: Tracked)
    returns (s': State)
    requires Open(b) && NativeComparison(b, op, l, r).Ok? && Within(NativeComparison(b, op, l, r).value.b, m)
    requires Operands(b, s, l, x, r, y, track) && ComparableTypes(op, lt, rt) && InOrder(m.h, op, Some(x), Some(y))
    requires TypeOfOperand(l) == LlvmType(lt) && HasType(x, lt) && TypeOfOperand(r) == LlvmType(rt) && HasType(y, rt)
    ensures Computes(m, b, s, NativeComparison(b, op, l, r).value, s', BoolOf(CompareValue(m.h, true, op, x, y)), track)
    ensures s'.dangling == s.dangling
    ensures TypeOfOperand(NativeComparison(b, op, l, r).value.v).I1?
  {
    hide Computes, Operands, Within, Open, NativeComparison, CompareValue, OrderedCompare, Converted;
    if lt.DoubleType? || rt.DoubleType? {
      s' := DoubleComparisonRuns(m, b, op, l, r, s, x, y, lt, rt, track);
    } else {
      s' := IntegerComparisonRuns(m, b, op, l, r, s, x, y, lt, track);
    }
  }

  // ---------- Expressions ----------

  /** The variables have their values: overridden ones in registers, others in the data. */
  ghost predicate Linked(m: Machine, b: Builder, s: State, env: Env) {
    && (forall x :: x in b.over ==> env(x).Some? && ValueOf(s, b.over[x]) == env(x))
    && (forall x :: x !in b.over ==> env(x) == Some(m.data(x)))
  }

  /** The machine is ready to run what is emitted next in environment env; where storage
      matters (`held`), the variables are in storage that is not released meanwhile. */
  ghost predicate Ready(m: Machine, b: Builder, s: State, env: Env, track: Tracked, held: bool) {
    && Linked(m, b, s, env) && Alive(b, s, track) && OverTracked(b, track)
    && (held ==> OverHeld(b, s, track))
  }

  ghost predicate OverTracked(b: Builder, track: Tracked) {
    forall x :: x in b.over ==> b.over[x].Reg? ==> Tracks(track, b.over[x].id)
  }

  lemma OwesCounts(a: Builder, b: Builder, owed: multiset<Operand>, exact: bool)
    requires Owes(a, b, owed, exact)
    ensures CountsKept(a, b)
  {
  }

  lemma LinkedKept(m: Machine, b: Builder, c: Builder, s: State, s': State, env: Env)
    requires WellFormed(b) && Linked(m, b, s, env) && AgreeBelow(s, s', b.next) && c.over == b.over
    ensures Linked(m, c, s', env)
  {
    forall x | x in c.over
      ensures env(x).Some? && ValueOf(s', c.over[x]) == env(x)
    {
      OperandKept(s, s', b.next, b.over[x]);
    }
  }

  lemma OverHeldKept(m: Machine, b: Builder, c: Builder, s: State, s': State, env: Env, track: Tracked)
    requires WellFormed(b) && Linked(m, b, s, env) && AgreeBelow(s, s', b.next) && c.over == b.over
    requires OverHeld(b, s, track) && CountsKept(b, c)
    ensures OverHeld(c, s', track)
  {
    forall x | x in c.over
      ensures Held(c, s', c.over[x], track)
    {
      OperandKept(s, s', b.next, b.over[x]);
      HeldWhenKept(b, c, s, s', b.over[x], track);
    }
  }

  lemma ReadyKept(m: Machine, b: Builder, c: Builder, s: State, s': State, env: Env, track: Tracked, held: bool)
    requires WellFormed(b) && Ready(m, b, s, env, track, held) && AgreeBelow(s, s', b.next) && c.over == b.over
    requires CountsKept(b, c) && Alive(c, s', track)
    ensures Ready(m, c, s', env, track, held)
  {
    hide WellFormed, Linked, AgreeBelow, Alive, OverHeld, CountsKept, Tracks;
    LinkedKept(m, b, c, s, s', env);
    if held { OverHeldKept(m, b, c, s, s', env, track); }
  }

  /** What lowering an expression guarantees, whatever it contains. */
  lemma ExprGrows(b: Builder, e: Expr)
    requires WellFormed(b) && LowerExpr(b, e).Ok?
    ensures var c := LowerExpr(b, e).value;
            && WellFormed(c.b) && Open(c.b) && Grows(b, c.b) && CountsKept(b, c.b) && c.b.over == b.over
            && b.next <= c.b.next && OperandBelow(c.v, c.b.next) && IsVariantOperand(c.v) == IsVariant(e)
            && (IsVariant(e) ==> c.v.Reg? && c.v.ty.VariantPtr?)
  {
    hide LowerExpr, IsVariant, KeysMatch, Releasable, Owes, CountsKept;
    var c := LowerExpr(b, e).value;
    LowerExprGrown(b, e, {}, false);
    OwesCounts(b, c.b, OwedFor(c.v), false);
  }

  /** What running a lowered expression does. */
  ghost predicate ExprRan(m: Machine, b: Builder, s: State, e: Expr, env: Env, c: Computed, s': State, track: Tracked,
                          held: bool) {
    && Computes(m, b, s, c, s', Eval(m.h, e, env), track)
    && (!IsVariant(e) && Eval(m.h, e, env).Some? ==> HasType(Eval(m.h, e, env).value, TypeOf(e)))
    && (held ==> Stored(m.h, b, s, e, env, c, s', track))
  }

  lemma {:induction false} ExprRuns(m: Machine, b: Builder, e: Expr, s: State, env: Env, track: Tracked, held: bool)
    returns (s': State)
    requires WellFormed(b) && LowerExpr(b, e).Ok? && Within(LowerExpr(b, e).value.b, m)
    requires Runnable(m.h, e) && Ready(m, b, s, env, track, held)
    ensures ExprRan(m, b, s, e, env, LowerExpr(b, e).value, s', track, held)
    decreases e, 2
  {
    hide *;
    match e
    case Var(x) => s' := VarRuns(m, b, x, s, env, track, held);
    case Attr(base, n) => s' := AttrRuns(m, b, base, n, s, env, track, held);
    case Call(f, args) => s' := CallRuns(m, b, f, args, s, env, track, held);
    case Bin(op, l, r) => s' := BinRuns(m, b, op, l, r, s, env, track, held);
    case Un(op, e1) => s' := UnRuns(m, b, op, e1, s, env, track, held);
    case Cmp(op, l, r) => s' := CmpRuns(m, b, op, l, r, s, env, track, held);
    case DoubleLit(_) => s' := LiteralRuns(m, b, e, s, env, track, held);
    case IntLit(_) => s' := LiteralRuns(m, b, e, s, env, track, held);
    case BoolLit(_) => s' := LiteralRuns(m, b, e, s, env, track, held);
    case StrLit(_) => s' := LiteralRuns(m, b, e, s, env, track, held);
  }

  lemma LiteralRuns(m: Machine, b: Builder, e: Expr, s: State, env: Env, track: Tracked, held: bool) returns (s': State)
    requires (e.DoubleLit? || e.IntLit? || e.BoolLit? || e.StrLit?) && Ready(m, b, s, env, track, held)
    ensures LowerExpr(b, e).Ok? && ExprRan(m, b, s, e, env, LowerExpr(b, e).value, s', track, held)
  {
    hide Linked, Alive, OverHeld;
    s' := s;
    ComputesSelf(m, b, s, LowerExpr(b, e).value, track);
  }

  lemma VarRuns(m: Machine, b: Builder, x: string, s: State, env: Env, track: Tracked, held: bool) returns (s': State)
    requires WellFormed(b) && LowerExpr(b, Var(x)).Ok? && Within(LowerExpr(b, Var(x)).value.b, m)
    requires Ready(m, b, s, env, track, held)
    ensures ExprRan(m, b, s, Var(x), env, LowerExpr(b, Var(x)).value, s', track, held)
  {
    var c := LowerExpr(b, Var(x)).value;
    if x in b.over {
      s' := s;
      AliveNewReference(b, s, b.over[x], track);
      ComputesSelf(m, b, s, c, track);
    } else {
      hide Within, Alive, Computes, VariableLookup, WellFormed;
      s' := VariableLookupRuns(m, b, x, s, track);
    }
  }

  lemma AttributeOf(b: Builder, base: Expr, n: string)
    requires LowerExpr(b, Attr(base, n)).Ok?
    ensures LowerExpr(b, base).Ok?
    ensures LowerExpr(b, Attr(base, n)) == AttributeLookup(LowerExpr(b, base).value.b, n, LowerExpr(b, base).value.v)
  {
    hide AttributeLookup;
  }

  lemma AttrParts(m: Machine, base: Expr, n: string, env: Env)
    ensures Runnable(m.h, Attr(base, n)) ==> Runnable(m.h, base)
    ensures Eval(m.h, Attr(base, n), env) == if Eval(m.h, base, env).None? then None
                                             else Some(GetAttribute(Eval(m.h, base, env).value, n))
    ensures IsVariant(Attr(base, n)) && (Rooted(Attr(base, n)) ==> Rooted(base))
  {
    hide GetAttribute;
  }

  lemma FailsAnyway(m: Machine, b: Builder, s: State, c: Computed, c': Computed, s': State, track: Tracked)
    requires Computes(m, b, s, c, s', None, track)
    ensures Computes(m, b, s, c', s', None, track)
  {
    hide Reaches, End;
  }

  lemma RanParts(m: Machine, b: Builder, s: State, e: Expr, env: Env, c: Computed, s': State, track: Tracked,
                 held: bool)
    requires ExprRan(m, b, s, e, env, c, s', track, held)
    ensures Computes(m, b, s, c, s', Eval(m.h, e, env), track)
    ensures !IsVariant(e) && Eval(m.h, e, env).Some? ==> HasType(Eval(m.h, e, env).value, TypeOf(e))
    ensures held ==> Stored(m.h, b, s, e, env, c, s', track)
  {
    hide Computes, Stored, Eval, IsVariant, TypeOf;
  }

  lemma IsRan(m: Machine, b: Builder, s: State, e: Expr, env: Env, c: Computed, s': State, track: Tracked, held: bool)
    requires Computes(m, b, s, c, s', Eval(m.h, e, env), track) && (held ==> Stored(m.h, b, s, e, env, c, s', track))
    requires !IsVariant(e) && Eval(m.h, e, env).Some? ==> HasType(Eval(m.h, e, env).value, TypeOf(e))
    ensures ExprRan(m, b, s, e, env, c, s', track, held)
  {
    hide Computes, Stored, Eval, IsVariant, TypeOf;
  }

  lemma StoredParts(h: Host, b: Builder, s: State, e: Expr, env: Env, c: Computed, s': State, track: Tracked)
    requires Stored(h, b, s, e, env, c, s', track)
    ensures Rooted(e) ==> s'.dangling == s.dangling
    ensures Eval(h, e, env).Some? ==>
              (s'.dangling <==> s.dangling || Dangles(h, e, env)) && Placed(h, b, e, env, c, s', track)
  {
    hide Placed, Eval, Dangles;
  }

  /** Where the computation fails, nothing is left to place. */
  lemma FailedStored(h: Host, b: Builder, s: State, e: Expr, env: Env, c: Computed, s': State, track: Tracked)
    requires Eval(h, e, env).None? && (Rooted(e) ==> s'.dangling == s.dangling)
    ensures Stored(h, b, s, e, env, c, s', track)
  {
    hide Placed, Eval, Dangles;
  }

  lemma AttrRuns(m: Machine, b: Builder, base: Expr, n: string, s: State, env: Env, track: Tracked, held: bool)
    returns (s': State)
    requires WellFormed(b) && LowerExpr(b, Attr(base, n)).Ok? && Within(LowerExpr(b, Attr(base, n)).value.b, m)
    requires Runnable(m.h, Attr(base, n)) && Ready(m, b, s, env, track, held)
    ensures ExprRan(m, b, s, Attr(base, n), env, LowerExpr(b, Attr(base, n)).value, s', track, held)
    decreases Attr(base, n), 1
  {
    hide *;
    var e := Attr(base, n);
    AttributeOf(b, base, n);
    AttrParts(m, base, n, env);
    ExprGrows(b, base);
    ExprGrows(b, e);
    var c := LowerExpr(b, base).value;
    var c' := LowerExpr(b, e).value;
    BaseIsVariant(b, c, n);
    AttributeNext(c.b, n, c.v);
    AttributeStage(m, c.b, n, c.v);
    var s1 := ExprRuns(m, b, base, s, env, track, held);
    RanParts(m, b, s, base, env, c, s1, track, held);
    if Eval(m.h, base, env).None? {
      s' := s1;
      FailsAnyway(m, b, s, c, c', s', track);
      if held {
        StoredParts(m.h, b, s, base, env, c, s1, track);
        FailedStored(m.h, b, s, e, env, c', s', track);
      }
    } else {
      var x := Eval(m.h, base, env).value;
      ComputedParts(m, b, s, c, s1, x, track);
      IsOperand(c.b, s1, c.v, x, track);
      s' := AttributeLookupRuns(m, c.b, n, c.v, s1, x, track);
      ComputedParts(m, c.b, s1, c', s', GetAttribute(x, n), track);
      ComputesAfter(m, b, s, c.b, s1, c', s', Some(GetAttribute(x, n)), track);
      if held { AttributePlaced(m.h, b, s, base, n, env, c, s1, c', s', x, track); }
    }
    IsRan(m, b, s, e, env, c', s', track, held);
  }

  /** An attribute that is there goes with the temporary it was taken of. */
  lemma AttributePlaced(h: Host, b: Builder, s: State, base: Expr, n: string, env: Env, c: Computed, s1: State,
                        c': Computed, s': State, x: Value, track: Tracked)
    requires Stored(h, b, s, base, env, c, s1, track) && Eval(h, base, env) == Some(x)
    requires Alive(c.b, s1, track) && CountsKept(b, c.b) && c.v.Reg? && c.v.ty.VariantPtr? && Proper(s1, c.v, track)
    requires Uses2(s1, s', c.v, c.v) && (c.v in c.b.refs && c.b.refs[c.v] == 1 ==> c.v.id !in s'.live)
    requires RootOf(s', c'.v) == if HasAttribute(x, n) then RootOf(s1, c.v) else None
    requires AgreeBelow(s1, s', c.b.next) && c.b.next <= c'.b.next
    ensures Stored(h, b, s, Attr(base, n), env, c', s', track)
  {
    hide Alive, CountsKept, AgreeBelow, Eval, HasAttribute, RootOf, Counted, GetAttribute;
    StaysAgreed(c.b, s1);
    UsableUnlessGone(h, b, base, env, c, s1, c.b, s1, track);
    if Rooted(base) { RootedStays(h, base, env); }
    if HasAttribute(x, n) {
      if Temporary(base) {
        SingleIsRoot(c, s1, track);
      } else if Gone(h, base, env) {
        StaysDead(s1, s', c.b.next, RootOf(s1, c.v).value);
      }
    }
  }

  lemma StaysAgreed(b: Builder, s: State)
    ensures CountsKept(b, b) && AgreeBelow(s, s, b.next)
  {
  }

  lemma BaseIsVariant(b: Builder, c: Computed, n: string)
    requires WellFormed(c.b) && AttributeLookup(c.b, n, c.v).Ok?
    ensures IsVariantOperand(c.v) && c.v.Reg? && c.v.ty.VariantPtr?
  {
  }

  lemma AttributeNext(b: Builder, n: string, base: Operand)
    requires AttributeLookup(b, n, base).Ok?
    ensures AttributeLookup(b, n, base).value.b.next == b.next + 1
  {
  }

  lemma AttributeStage(m: Machine, b: Builder, n: string, base: Operand)
    requires Open(b) && AttributeLookup(b, n, base).Ok?
    ensures Within(AttributeLookup(b, n, base).value.b, m) ==> Within(b, m)
  {
    hide *;
    AttributeParts(b, n, base);
    var i := CallAttribute(b.next, base, n);
    NativeStage(m, b, i);
    SetRefStays(Emit(Fresh(b, 1), i), Variant(b.next), -1, State(map[], "", {}, false, false), m);
    ReleaseStage(m, SetRef(Emit(Fresh(b, 1), i), Variant(b.next), -1), base);
  }

  // ---------- Static types ----------

  lemma UnUnfolds(b: Builder, op: UnaryOp, e: Expr)
    requires LowerExpr(b, Un(op, e)).Ok?
    ensures LowerExpr(b, e).Ok?
    ensures LowerExpr(b, Un(op, e)) == UnResult(LowerExpr(b, e).value.b, op, LowerExpr(b, e).value.v)
  {
    hide VariantUnary, NativeUnaryOp;
  }

  lemma BinUnfolds(b: Builder, op: BinaryOp, l: Expr, r: Expr)
    requires LowerExpr(b, Bin(op, l, r)).Ok?
    ensures LowerExpr(b, l).Ok?
    ensures var cl := LowerExpr(b, l).value;
            && LowerExpr(cl.b, r).Ok?
            && var cr := LowerExpr(cl.b, r).value;
               LowerExpr(b, Bin(op, l, r)) == BinResult(cr.b, op, cl.v, cr.v)
  {
    hide VariantBinary, NativeBinaryOp;
  }

  lemma CmpUnfolds(b: Builder, op: ComparisonOp, l: Expr, r: Expr)
    requires LowerExpr(b, Cmp(op, l, r)).Ok?
    ensures LowerExpr(b, l).Ok?
    ensures var cl := LowerExpr(b, l).value;
            && LowerExpr(cl.b, r).Ok?
            && var cr := LowerExpr(cl.b, r).value;
               LowerExpr(b, Cmp(op, l, r)) == CmpResult(cr.b, op, cl.v, cr.v)
  {
    hide VariantComparison, NativeComparison;
  }

  /** The operand of an expression that is not a variant has the type the parser gave it. */
  lemma {:induction false} StaticType(h: Host, b: Builder, e: Expr)
    requires WellFormed(b) && LowerExpr(b, e).Ok? && Runnable(h, e)
    ensures !IsVariant(e) ==> TypeOfOperand(LowerExpr(b, e).value.v) == LlvmType(TypeOf(e))
    decreases e, 1
  {
    match e
    case Bin(op, l, r) => BinType(h, b, op, l, r);
    case Cmp(op, l, r) => CmpType(h, b, op, l, r);
    case Un(op, e1) => UnType(h, b, op, e1);
    case _ =>
  }

  lemma UnType(h: Host, b: Builder, op: UnaryOp, e: Expr)
    requires WellFormed(b) && LowerExpr(b, Un(op, e)).Ok? && Runnable(h, Un(op, e))
    ensures !IsVariant(e) ==> TypeOfOperand(LowerExpr(b, Un(op, e)).value.v) == LlvmType(TypeOf(Un(op, e)))
    decreases Un(op, e), 0
  {
    hide LowerExpr, VariantUnary, WellFormed;
    UnUnfolds(b, op, e);
    StaticType(h, b, e);
  }

  lemma BinType(h: Host, b: Builder, op: BinaryOp, l: Expr, r: Expr)
    requires WellFormed(b) && LowerExpr(b, Bin(op, l, r)).Ok? && Runnable(h, Bin(op, l, r))
    ensures !IsVariant(l) && !IsVariant(r) ==> TypeOfOperand(LowerExpr(b, Bin(op, l, r)).value.v).DoubleTy?
    decreases Bin(op, l, r), 0
  {
    hide LowerExpr, VariantBinary, WellFormed, Convert;
    BinUnfolds(b, op, l, r);
    StaticType(h, b, l);
    LoweredIsWellFormed(b, l);
    StaticType(h, LowerExpr(b, l).value.b, r);
  }

  lemma CmpType(h: Host, b: Builder, op: ComparisonOp, l: Expr, r: Expr)
    requires WellFormed(b) && LowerExpr(b, Cmp(op, l, r)).Ok? && Runnable(h, Cmp(op, l, r))
    ensures TypeOfOperand(LowerExpr(b, Cmp(op, l, r)).value.v).I1?
    decreases Cmp(op, l, r), 0
  {
    hide LowerExpr, WrapBoth, BothGoOutOfScope, CheckedCall, WellFormed, Convert;
    CmpUnfolds(b, op, l, r);
    StaticType(h, b, l);
    LoweredIsWellFormed(b, l);
    var cl := LowerExpr(b, l).value;
    StaticType(h, cl.b, r);
    LoweredIsWellFormed(cl.b, r);
  }

  lemma LoweredIsWellFormed(b: Builder, e: Expr)
    requires WellFormed(b) && LowerExpr(b, e).Ok?
    ensures WellFormed(LowerExpr(b, e).value.b) && IsVariantOperand(LowerExpr(b, e).value.v) == IsVariant(e)
  {
    hide LowerExpr, IsVariant, KeysMatch, Releasable;
    LowerExprGrown(b, e, {}, false);
  }

  // ---------- Unary operations ----------

  lemma UnParts(m: Machine, op: UnaryOp, e: Expr, env: Env)
    requires Runnable(m.h, Un(op, e))
    ensures Runnable(m.h, e) && IsVariant(Un(op, e)) == IsVariant(e) && Operates(Un(op, e), e, e)
    ensures !IsVariant(e) ==> ExactUnary(op, TypeOf(e)) && TypeOf(Un(op, e)) == TypeOf(e)
    ensures var x := Eval(m.h, e, env);
            Eval(m.h, Un(op, e), env) == if x.None? then None else UnaryValue(m.h, !IsVariant(e), op, x.value)
  {
    hide UnaryValue;
  }

  lemma UnStage(m: Machine, b: Builder, op: UnaryOp, v: Operand)
    requires Open(b) && UnResult(b, op, v).Ok?
    ensures Within(UnResult(b, op, v).value.b, m) ==> Within(b, m)
  {
    if IsVariantOperand(v) {
      hide *;
      UnIsVariant(b, op, v);
      UnaryUnfolds(b, op, v);
      var call := CallUnary(b.next, b.next + 1, op, v);
      CheckedCallStage(m, b, b.next, call);
      SetRefStays(CheckedCall(b, b.next, call), Variant(b.next + 1), 1, State(map[], "", {}, false, false), m);
      ReleaseStage(m, SetRef(CheckedCall(b, b.next, call), Variant(b.next + 1), 1), v);
    } else if !op.NumericPositive? {
      NativeStage(m, b, if op.NumericNegative? then Neg(b.next, v) else Not(b.next, v));
    }
  }

  lemma UnIsVariant(b: Builder, op: UnaryOp, v: Operand)
    ensures UnResult(b, op, v) == if IsVariantOperand(v) then VariantUnary(b, op, v) else NativeUnaryOp(b, op, v)
  {
  }

  /** Operands that can be used unless their storage has ended already. */
  ghost predicate PairStored(h: Host, s: State, l: Expr, r: Expr, env: Env, cl: Computed, cr: Computed, s': State) {
    && (Rooted(l) && Rooted(r) ==> s'.dangling == s.dangling)
    && (Eval(h, l, env).Some? && Eval(h, r, env).Some? ==>
          && (s'.dangling <==> s.dangling || Dangles(h, l, env) || Dangles(h, r, env))
          && (Usable(s', cl.v) <==> !Gone(h, l, env)) && (Usable(s', cr.v) <==> !Gone(h, r, env)))
  }

  predicate Operates(e: Expr, l: Expr, r: Expr) {
    match e
    case Bin(_, x, y) => x == l && y == r
    case Cmp(_, x, y) => x == l && y == r
    case Un(_, x) => x == l == r
    case _ => false
  }

  /** The operation uses its operands, and its result is a new temporary or has no storage. */
  lemma OperationStored(h: Host, b: Builder, s: State, e: Expr, l: Expr, r: Expr, env: Env, cl: Computed, cr: Computed,
                        s1: State, c: Computed, s': State, track: Tracked)
    requires Operates(e, l, r) && PairStored(h, s, l, r, env, cl, cr, s1)
    requires if Eval(h, l, env).Some? && Eval(h, r, env).Some? then Uses2(s1, s', cl.v, cr.v) else s' == s1
    requires Eval(h, e, env).Some? ==> Proper(s', c.v, track) && (IsVariant(e) ==> Single(c))
    requires IsVariantOperand(c.v) == IsVariant(e)
    ensures Stored(h, b, s, e, env, c, s', track)
  {
    hide Usable, Single, IsVariant, Proper, Placed, Eval;
    if Rooted(e) {
      RootedStays(h, l, env);
      RootedStays(h, r, env);
    }
    FailsWithOperands(h, e, l, r, env);
    if Eval(h, e, env).Some? { ResultPlaced(h, b, e, env, c, s', track); }
  }

  lemma ResultPlaced(h: Host, b: Builder, e: Expr, env: Env, c: Computed, s: State, track: Tracked)
    requires !e.Var? && !e.Attr? && Proper(s, c.v, track) && IsVariantOperand(c.v) == IsVariant(e)
    requires IsVariant(e) ==> Single(c)
    ensures Placed(h, b, e, env, c, s, track)
  {
    hide Single, IsVariant, RootOf;
  }

  lemma FailsWithOperands(h: Host, e: Expr, l: Expr, r: Expr, env: Env)
    requires Operates(e, l, r)
    ensures Eval(h, e, env).Some? ==> Eval(h, l, env).Some? && Eval(h, r, env).Some?
  {
    hide BinaryValue, UnaryValue, CompareValue;
  }

  lemma VariantUnaryValue(h: Host, op: UnaryOp, x: Value)
    ensures UnaryValue(h, false, op, x) == h.unary(op, x)
  {
  }

  /** Values without storage are used without risk. */
  lemma NativeUses(b: Builder, s: State, s': State, l: Operand, x: Value, r: Operand, y: Value, track: Tracked)
    requires Operands(b, s, l, x, r, y, track) && !IsVariantOperand(l) && !IsVariantOperand(r)
    requires s'.dangling == s.dangling
    ensures Uses2(s, s', l, r)
  {
  }

  lemma UnOperates(m: Machine, b: Builder, op: UnaryOp, e: Expr, v: Operand, s: State, x: Value, c: Computed,
                   track: Tracked)
    returns (s': State)
    requires Open(b) && UnResult(b, op, v) == Ok(c) && Within(c.b, m) && Operands(b, s, v, x, v, x, track)
    requires IsVariantOperand(v) == IsVariant(e) && (IsVariant(e) ==> v.Reg? && v.ty.VariantPtr?)
    requires !IsVariant(e) ==>
               TypeOfOperand(v) == LlvmType(TypeOf(e)) && HasType(x, TypeOf(e)) && ExactUnary(op, TypeOf(e))
    ensures var z := UnaryValue(m.h, !IsVariant(e), op, x);
            Computes(m, b, s, c, s', z, track) && (z.Some? && IsVariant(e) ==> Single(c))
            && (z.Some? && !IsVariant(e) ==> HasType(z.value, TypeOf(e)))
    ensures Uses2(s, s', v, v)
  {
    hide *;
    UnIsVariant(b, op, v);
    if IsVariantOperand(v) {
      VariantUnaryValue(m.h, op, x);
      s' := VariantUnaryRuns(m, b, op, v, s, x, track);
    } else {
      s' := NativeUnaryRuns(m, b, op, v, s, x, TypeOf(e), track);
      NativeUses(b, s, s', v, x, v, x, track);
    }
  }

  lemma UnRuns(m: Machine, b: Builder, op: UnaryOp, e: Expr, s: State, env: Env, track: Tracked, held: bool)
    returns (s': State)
    requires WellFormed(b) && LowerExpr(b, Un(op, e)).Ok? && Within(LowerExpr(b, Un(op, e)).value.b, m)
    requires Runnable(m.h, Un(op, e)) && Ready(m, b, s, env, track, held)
    ensures ExprRan(m, b, s, Un(op, e), env, LowerExpr(b, Un(op, e)).value, s', track, held)
    decreases Un(op, e), 1
  {
    hide *;
    UnUnfolds(b, op, e);
    UnParts(m, op, e, env);
    ExprGrows(b, e);
    ExprGrows(b, Un(op, e));
    var c := LowerExpr(b, e).value;
    var c' := LowerExpr(b, Un(op, e)).value;
    UnStage(m, c.b, op, c.v);
    var s1 := ExprRuns(m, b, e, s, env, track, held);
    RanParts(m, b, s, e, env, c, s1, track, held);
    if !IsVariant(e) { StaticType(m.h, b, e); }
    s' := s1;
    if Eval(m.h, e, env).None? {
      FailsAnyway(m, b, s, c, c', s', track);
    } else {
      var x := Eval(m.h, e, env).value;
      ComputedParts(m, b, s, c, s1, x, track);
      IsOperand(c.b, s1, c.v, x, track);
      s' := UnOperates(m, c.b, op, e, c.v, s1, x, c', track);
      ComputesAfter(m, b, s, c.b, s1, c', s', Eval(m.h, Un(op, e), env), track);
    }
    if held {
      OperandStored(m.h, b, s, e, env, c, s1, track);
      ResultRootless(m, b, s, Un(op, e), env, c', s', track);
      OperationStored(m.h, b, s, Un(op, e), e, e, env, c, c, s1, c', s', track);
    }
    IsRan(m, b, s, Un(op, e), env, c', s', track, held);
  }

  lemma ResultRootless(m: Machine, b: Builder, s: State, e: Expr, env: Env, c: Computed, s': State, track: Tracked)
    requires Computes(m, b, s, c, s', Eval(m.h, e, env), track)
    ensures Eval(m.h, e, env).Some? ==> Proper(s', c.v, track)
  {
    hide Reaches, End, AgreeBelow, ValueOf, Alive, Proper, Eval;
  }

  /** The operand of a unary operation, as a pair of the same. */
  lemma OperandStored(h: Host, b: Builder, s: State, e: Expr, env: Env, c: Computed, s1: State, track: Tracked)
    requires Stored(h, b, s, e, env, c, s1, track) && CountsKept(b, c.b)
    requires Eval(h, e, env).Some? ==> Alive(c.b, s1, track) && Proper(s1, c.v, track)
    requires IsVariant(e) ==> c.v.Reg? && c.v.ty.VariantPtr?
    ensures PairStored(h, s, e, e, env, c, c, s1)
  {
    hide Alive, CountsKept, AgreeBelow, Eval, RootOf, Counted, Usable, Dangles, Placed;
    if Eval(h, e, env).Some? {
      StaysAgreed(c.b, s1);
      UsableUnlessGone(h, b, e, env, c, s1, c.b, s1, track);
    }
  }

  // ---------- Binary operations and comparisons ----------

  /** What running both operands does. */
  ghost predicate PairRan(m: Machine, b: Builder, s: State, l: Expr, r: Expr, env: Env, cl: Computed, cr: Computed,
                          s': State, track: Tracked, held: bool) {
    var x, y := Eval(m.h, l, env), Eval(m.h, r, env);
    && s'.out == s.out
    && (x.None? || y.None? ==> Reaches(m, End(b, s), Done(s')) && (track.exact ==> !s'.recreated))
    && (x.Some? && y.Some? ==>
          && Reaches(m, End(b, s), End(cr.b, s')) && AgreeBelow(s, s', b.next)
          && Operands(cr.b, s', cl.v, x.value, cr.v, y.value, track)
          && (!IsVariant(l) ==> HasType(x.value, TypeOf(l)))
          && (!IsVariant(r) ==> HasType(y.value, TypeOf(r))))
    && (held ==> PairStored(m.h, s, l, r, env, cl, cr, s'))
  }

  lemma PairRuns(m: Machine, b: Builder, e: Expr, l: Expr, r: Expr, s: State, env: Env, track: Tracked, held: bool,
                 cl: Computed, cr: Computed)
    returns (s': State)
    requires (e.Bin? && e.left == l && e.right == r) || (e.Cmp? && e.left == l && e.right == r)
    requires WellFormed(b) && LowerExpr(b, l) == Ok(cl) && LowerExpr(cl.b, r) == Ok(cr) && Within(cr.b, m)
    requires Runnable(m.h, l) && Runnable(m.h, r) && Ready(m, b, s, env, track, held)
    ensures PairRan(m, b, s, l, r, env, cl, cr, s', track, held)
    ensures Open(cr.b) && b.next <= cr.b.next
    ensures IsVariantOperand(cl.v) == IsVariant(l) && IsVariantOperand(cr.v) == IsVariant(r)
    decreases e, 0
  {
    hide *;
    ExprGrows(b, l);
    ExprGrows(cl.b, r);
    WithinGrows(cl.b, cr.b, m);
    var s1 := ExprRuns(m, b, l, s, env, track, held);
    RanParts(m, b, s, l, env, cl, s1, track, held);
    var x, y := Eval(m.h, l, env), Eval(m.h, r, env);
    if x.None? {
      s' := s1;
      if held { PairNotStored(m.h, b, s, l, l, r, env, cl, cl, cr, s', track); }
      PairFails(m, b, s, l, r, env, cl, cr, cl, s', track, held);
    } else {
      ComputedParts(m, b, s, cl, s1, x.value, track);
      ReadyKept(m, b, cl.b, s, s1, env, track, held);
      s' := ExprRuns(m, cl.b, r, s1, env, track, held);
      RanParts(m, cl.b, s1, r, env, cr, s', track, held);
      ComputesAfter(m, b, s, cl.b, s1, cr, s', y, track);
      if y.None? {
        if held { RightNotStored(m.h, b, s, l, r, env, cl, s1, cr, s', track); }
        PairFails(m, b, s, l, r, env, cl, cr, cr, s', track, held);
      } else {
        ComputedParts(m, cl.b, s1, cr, s', y.value, track);
        ComputedParts(m, b, s, cr, s', y.value, track);
        IsOperand(cl.b, s1, cl.v, x.value, track);
        OperandsKept(cl.b, cr.b, s1, s', cl.v, x.value, track);
        IsOperand(cr.b, s', cr.v, y.value, track);
        PairJoin(cr.b, s', cl.v, x.value, cr.v, y.value, track);
        if held {
          OperandKept(s1, s', cl.b.next, cl.v);
          PairIsStored(m.h, b, s, l, r, env, cl, s1, cr, s', track);
        }
        PairSucceeds(m, b, s, l, r, env, cl, cr, s', track, held);
      }
    }
  }

  lemma PairNotStored(h: Host, b: Builder, s: State, e: Expr, l: Expr, r: Expr, env: Env, c: Computed, cl: Computed,
                      cr: Computed, s': State, track: Tracked)
    requires Stored(h, b, s, e, env, c, s', track) && e == l && Eval(h, e, env).None?
    ensures PairStored(h, s, l, r, env, cl, cr, s')
  {
    hide Placed, Eval, Dangles, Usable, Gone;
  }

  lemma RightNotStored(h: Host, b: Builder, s: State, l: Expr, r: Expr, env: Env, cl: Computed, s1: State, cr: Computed,
                       s': State, track: Tracked)
    requires Stored(h, b, s, l, env, cl, s1, track) && Stored(h, cl.b, s1, r, env, cr, s', track)
    requires Eval(h, r, env).None?
    ensures PairStored(h, s, l, r, env, cl, cr, s')
  {
    hide Placed, Eval, Dangles, Usable, Gone;
  }

  lemma PairIsStored(h: Host, b: Builder, s: State, l: Expr, r: Expr, env: Env, cl: Computed, s1: State, cr: Computed,
                     s': State, track: Tracked)
    requires Stored(h, b, s, l, env, cl, s1, track) && Stored(h, cl.b, s1, r, env, cr, s', track)
    requires Eval(h, l, env).Some? && Eval(h, r, env).Some?
    requires Alive(cl.b, s1, track) && Alive(cr.b, s', track) && CountsKept(b, cl.b) && CountsKept(cl.b, cr.b)
    requires AgreeBelow(s1, s', cl.b.next) && RootOf(s', cl.v) == RootOf(s1, cl.v)
    requires Proper(s1, cl.v, track) && (IsVariant(l) ==> cl.v.Reg? && cl.v.ty.VariantPtr?)
    requires Proper(s', cr.v, track) && (IsVariant(r) ==> cr.v.Reg? && cr.v.ty.VariantPtr?)
    ensures PairStored(h, s, l, r, env, cl, cr, s')
  {
    hide Alive, CountsKept, AgreeBelow, Eval, RootOf, Counted, Usable, Dangles, Placed, Gone, IsVariant, Proper;
    CountsKeptTrans(b, cl.b, cr.b);
    StaysAgreed(cr.b, s');
    UsableUnlessGone(h, b, l, env, cl, s1, cr.b, s', track);
    UsableUnlessGone(h, cl.b, r, env, cr, s', cr.b, s', track);
  }

  lemma PairFails(m: Machine, b: Builder, s: State, l: Expr, r: Expr, env: Env, cl: Computed, cr: Computed, c: Computed,
                  s': State, track: Tracked, held: bool)
    requires Computes(m, b, s, c, s', None, track) && (Eval(m.h, l, env).None? || Eval(m.h, r, env).None?)
    requires held ==> PairStored(m.h, s, l, r, env, cl, cr, s')
    ensures PairRan(m, b, s, l, r, env, cl, cr, s', track, held)
  {
    hide Reaches, End, Eval, IsVariant, TypeOf, PairStored;
  }

  lemma PairSucceeds(m: Machine, b: Builder, s: State, l: Expr, r: Expr, env: Env, cl: Computed, cr: Computed,
                     s': State, track: Tracked, held: bool)
    requires Eval(m.h, l, env).Some? && Eval(m.h, r, env).Some?
    requires s'.out == s.out && Reaches(m, End(b, s), End(cr.b, s')) && AgreeBelow(s, s', b.next)
    requires Operands(cr.b, s', cl.v, Eval(m.h, l, env).value, cr.v, Eval(m.h, r, env).value, track)
    requires !IsVariant(l) ==> HasType(Eval(m.h, l, env).value, TypeOf(l))
    requires !IsVariant(r) ==> HasType(Eval(m.h, r, env).value, TypeOf(r))
    requires held ==> PairStored(m.h, s, l, r, env, cl, cr, s')
    ensures PairRan(m, b, s, l, r, env, cl, cr, s', track, held)
  {
    hide Reaches, End, Eval, IsVariant, TypeOf, AgreeBelow, Operands, HasType, PairStored;
  }

  lemma BinParts(m: Machine, op: BinaryOp, l: Expr, r: Expr, env: Env)
    requires Runnable(m.h, Bin(op, l, r))
    ensures Runnable(m.h, l) && Runnable(m.h, r) && Operates(Bin(op, l, r), l, r)
    ensures IsVariant(Bin(op, l, r)) == (IsVariant(l) || IsVariant(r))
    ensures !IsVariant(l) && !IsVariant(r) ==>
                ExactBinary(TypeOf(l), TypeOf(r)) && (TypeOf(Bin(op, l, r)) == DoubleType)
    ensures var x, y := Eval(m.h, l, env), Eval(m.h, r, env);
            Eval(m.h, Bin(op, l, r), env)
            == if x.None? || y.None? then None else BinaryValue(m.h, !IsVariant(Bin(op, l, r)), op, x.value, y.value)
  {
    hide BinaryValue;
  }

  lemma BinStage(m: Machine, b: Builder, op: BinaryOp, l: Operand, r: Operand)
    requires Open(b) && BinResult(b, op, l, r).Ok? && Within(BinResult(b, op, l, r).value.b, m)
    ensures Within(b, m)
  {
    hide *;
    BinIs(b, op, l, r);
    if IsVariantOperand(l) || IsVariantOperand(r) {
      BinaryStages(m, b, op, l, r);
      WrapBothStage(m, b, l, r);
    } else {
      NativeBinaryStage(m, b, op, l, r);
    }
  }

  lemma NativeBinaryStage(m: Machine, b: Builder, op: BinaryOp, l: Operand, r: Operand)
    requires Open(b) && NativeBinaryOp(b, op, l, r).Ok? && Within(NativeBinaryOp(b, op, l, r).value.b, m)
    ensures Within(b, m)
  {
    hide Within, Open, Emit, Convert;
    if IsIntegerOperand(l) && IsIntegerOperand(r) {
      NativeStage(m, b, IntOp(b.next, op, l, r));
    } else {
      var cl := Convert(b, l).value;
      var cr := Convert(cl.b, r).value;
      ConvertStage(m, b, l);
      ConvertStage(m, cl.b, r);
      NativeStage(m, cr.b, FloatOp(cr.b.next, op, cl.v, cr.v));
    }
  }

  lemma VariantBinaryValue(h: Host, op: BinaryOp, x: Value, y: Value)
    ensures BinaryValue(h, false, op, x, y) == h.binary(op, x, y)
  {
  }

  lemma PairRanParts(m: Machine, b: Builder, s: State, l: Expr, r: Expr, env: Env, cl: Computed, cr: Computed,
                     s': State, track: Tracked, held: bool)
    requires PairRan(m, b, s, l, r, env, cl, cr, s', track, held)
    ensures s'.out == s.out && (held ==> PairStored(m.h, s, l, r, env, cl, cr, s'))
    ensures var x, y := Eval(m.h, l, env), Eval(m.h, r, env);
            && (x.None? || y.None? ==> Reaches(m, End(b, s), Done(s')) && (track.exact ==> !s'.recreated))
            && (x.Some? && y.Some? ==>
                  && Reaches(m, End(b, s), End(cr.b, s')) && AgreeBelow(s, s', b.next)
                  && Operands(cr.b, s', cl.v, x.value, cr.v, y.value, track)
                  && (!IsVariant(l) ==> HasType(x.value, TypeOf(l)))
                  && (!IsVariant(r) ==> HasType(y.value, TypeOf(r))))
  {
    hide Reaches, End, Eval, IsVariant, TypeOf, AgreeBelow, Operands, HasType, PairStored;
  }

  lemma BinRuns(m: Machine, b: Builder, op: BinaryOp, l: Expr, r: Expr, s: State, env: Env, track: Tracked, held: bool)
    returns (s': State)
    requires WellFormed(b) && LowerExpr(b, Bin(op, l, r)).Ok? && Within(LowerExpr(b, Bin(op, l, r)).value.b, m)
    requires Runnable(m.h, Bin(op, l, r)) && Ready(m, b, s, env, track, held)
    ensures ExprRan(m, b, s, Bin(op, l, r), env, LowerExpr(b, Bin(op, l, r)).value, s', track, held)
    decreases Bin(op, l, r), 1
  {
    hide *;
    var e := Bin(op, l, r);
    BinUnfolds(b, op, l, r);
    BinParts(m, op, l, r, env);
    ExprGrows(b, e);
    var cl := LowerExpr(b, l).value;
    var cr := LowerExpr(cl.b, r).value;
    var c := LowerExpr(b, e).value;
    PairStages(m.h, b, l, r, cl, cr);
    BinStage(m, cr.b, op, cl.v, cr.v);
    var s1 := PairRuns(m, b, e, l, r, s, env, track, held, cl, cr);
    PairRanParts(m, b, s, l, r, env, cl, cr, s1, track, held);
    var x, y := Eval(m.h, l, env), Eval(m.h, r, env);
    s' := s1;
    if x.None? || y.None? {
      IsFailed(m, b, s, c, s', track);
    } else {
      s' := BinOperates(m, cr.b, op, l, r, cl.v, cr.v, s1, x.value, y.value, c, track);
      ComputesAfter(m, b, s, cr.b, s1, c, s', Eval(m.h, e, env), track);
      DoubleHasType(m, l, r, op, x.value, y.value);
    }
    if held {
      ResultRootless(m, b, s, e, env, c, s', track);
      OperationStored(m.h, b, s, e, l, r, env, cl, cr, s1, c, s', track);
    }
    IsRan(m, b, s, e, env, c, s', track, held);
  }

  lemma DoubleHasType(m: Machine, l: Expr, r: Expr, op: BinaryOp, x: Value, y: Value)
    requires !IsVariant(l) && !IsVariant(r) ==>
                 ExactBinary(TypeOf(l), TypeOf(r)) && HasType(x, TypeOf(l)) && HasType(y, TypeOf(r))
    ensures !IsVariant(l) && !IsVariant(r) ==>
              var z := BinaryValue(m.h, true, op, x, y); z.Some? && HasType(z.value, DoubleType)
  {
  }

  /** Lowering the left operand and then the right one. */
  lemma PairStages(h: Host, b: Builder, l: Expr, r: Expr, cl: Computed, cr: Computed)
    requires WellFormed(b) && LowerExpr(b, l) == Ok(cl) && LowerExpr(cl.b, r) == Ok(cr) && Runnable(h, l)
    requires Runnable(h, r)
    ensures WellFormed(cl.b) && WellFormed(cr.b) && Open(cr.b)
    ensures IsVariantOperand(cl.v) == IsVariant(l) && IsVariantOperand(cr.v) == IsVariant(r)
    ensures !IsVariant(l) ==> TypeOfOperand(cl.v) == LlvmType(TypeOf(l))
    ensures !IsVariant(r) ==> TypeOfOperand(cr.v) == LlvmType(TypeOf(r))
  {
    hide *;
    StaticType(h, b, l);
    LoweredIsWellFormed(b, l);
    StaticType(h, cl.b, r);
    LoweredIsWellFormed(cl.b, r);
    WellFormedOpen(cr.b);
  }

  lemma BinOperates(m: Machine, b: Builder, op: BinaryOp, le: Expr, re: Expr, l: Operand, r: Operand, s: State,
                    x: Value, y: Value, c: Computed, track: Tracked)
    returns (s': State)
    requires Open(b) && BinResult(b, op, l, r) == Ok(c) && Within(c.b, m) && Operands(b, s, l, x, r, y, track)
    requires IsVariantOperand(l) == IsVariant(le) && IsVariantOperand(r) == IsVariant(re)
    requires !IsVariant(le) ==> TypeOfOperand(l) == LlvmType(TypeOf(le)) && HasType(x, TypeOf(le))
    requires !IsVariant(re) ==> TypeOfOperand(r) == LlvmType(TypeOf(re)) && HasType(y, TypeOf(re))
    requires !IsVariant(le) && !IsVariant(re) ==> ExactBinary(TypeOf(le), TypeOf(re))
    ensures var z := BinaryValue(m.h, !IsVariant(le) && !IsVariant(re), op, x, y);
            Computes(m, b, s, c, s', z, track) && (z.Some? && (IsVariant(le) || IsVariant(re)) ==> Single(c))
    ensures Uses2(s, s', l, r)
  {
    hide *;
    BinIs(b, op, l, r);
    if IsVariantOperand(l) || IsVariantOperand(r) {
      VariantBinaryValue(m.h, op, x, y);
      s' := VariantBinaryRuns(m, b, op, l, r, s, x, y, track);
    } else {
      s' := NativeBinaryRuns(m, b, op, l, r, s, x, y, TypeOf(le), TypeOf(re), track);
      NativeUses(b, s, s', l, x, r, y, track);
    }
  }

  lemma CmpParts(m: Machine, op: ComparisonOp, l: Expr, r: Expr, env: Env)
    requires Runnable(m.h, Cmp(op, l, r))
    ensures Runnable(m.h, l) && Runnable(m.h, r) && Operates(Cmp(op, l, r), l, r)
    ensures !IsVariant(l) && !IsVariant(r) ==>
              ComparableTypes(op, TypeOf(l), TypeOf(r)) && InOrder(m.h, op, Eval(m.h, l, env), Eval(m.h, r, env))
    ensures TypeOf(Cmp(op, l, r)) == BooleanType && !IsVariant(Cmp(op, l, r))
    ensures var x, y := Eval(m.h, l, env), Eval(m.h, r, env);
            Eval(m.h, Cmp(op, l, r), env)
            == if x.None? || y.None? then None
               else BoolOf(CompareValue(m.h, !IsVariant(l) && !IsVariant(r), op, x.value, y.value))
  {
    hide CompareValue, InOrder, ComparableTypes;
  }

  lemma CmpStage(m: Machine, b: Builder, op: ComparisonOp, l: Operand, r: Operand)
    requires Open(b) && CmpResult(b, op, l, r).Ok? && Within(CmpResult(b, op, l, r).value.b, m)
    ensures Within(b, m)
  {
    hide *;
    CmpIs(b, op, l, r);
    if IsVariantOperand(l) || IsVariantOperand(r) {
      ComparisonUnfolds(b, op, l, r);
      var w := WrapBoth(b, l, r);
      var call := CallCompare(w.b.next, w.b.next + 1, op, w.l, w.r);
      WrapBothStage(m, b, l, r);
      CheckedCallStage(m, w.b, w.b.next, call);
      BothReleaseStage(m, CheckedCall(w.b, w.b.next, call), w.l, w.r);
    } else {
      NativeComparisonStage(m, b, op, l, r);
    }
  }

  lemma NativeComparisonStage(m: Machine, b: Builder, op: ComparisonOp, l: Operand, r: Operand)
    requires Open(b) && NativeComparison(b, op, l, r).Ok? && Within(NativeComparison(b, op, l, r).value.b, m)
    ensures Within(b, m)
  {
    hide Within, Open, Emit, Convert;
    if IsIntegerOperand(l) && IsIntegerOperand(r) {
      NativeStage(m, b, if IsLogical(op) then Logic(b.next, op, l, r) else ICmp(b.next, op, l, r));
    } else {
      var cl := Convert(b, l).value;
      var cr := Convert(cl.b, r).value;
      ConvertStage(m, b, l);
      ConvertStage(m, cl.b, r);
      NativeStage(m, cr.b, FCmp(cr.b.next, op, cl.v, cr.v));
    }
  }

  lemma VariantCompareValue(h: Host, op: ComparisonOp, x: Value, y: Value)
    ensures CompareValue(h, false, op, x, y) == h.compare(op, x, y)
  {
  }

  lemma CmpOperates(m: Machine, b: Builder, op: ComparisonOp, le: Expr, re: Expr, l: Operand, r: Operand, s: State,
                    x: Value, y: Value, c: Computed, track: Tracked)
    returns (s': State)
    requires Open(b) && CmpResult(b, op, l, r) == Ok(c) && Within(c.b, m) && Operands(b, s, l, x, r, y, track)
    requires IsVariantOperand(l) == IsVariant(le) && IsVariantOperand(r) == IsVariant(re)
    requires !IsVariant(le) ==> TypeOfOperand(l) == LlvmType(TypeOf(le)) && HasType(x, TypeOf(le))
    requires !IsVariant(re) ==> TypeOfOperand(r) == LlvmType(TypeOf(re)) && HasType(y, TypeOf(re))
    requires !IsVariant(le) && !IsVariant(re) ==>
               ComparableTypes(op, TypeOf(le), TypeOf(re)) && InOrder(m.h, op, Some(x), Some(y))
    ensures Computes(m, b, s, c, s', BoolOf(CompareValue(m.h, !IsVariant(le) && !IsVariant(re), op, x, y)), track)
    ensures Uses2(s, s', l, r)
  {
    hide *;
    CmpIs(b, op, l, r);
    if IsVariantOperand(l) || IsVariantOperand(r) {
      VariantCompareValue(m.h, op, x, y);
      s' := VariantComparisonRuns(m, b, op, l, r, s, x, y, track);
    } else {
      s' := NativeComparisonRuns(m, b, op, l, r, s, x, y, TypeOf(le), TypeOf(re), track);
      NativeUses(b, s, s', l, x, r, y, track);
    }
  }

  lemma BoolHasType(c: Option<bool>)
    ensures BoolOf(c).Some? ==> HasType(BoolOf(c).value, BooleanType)
  {
  }

  lemma CmpRuns(m: Machine, b: Builder, op: ComparisonOp, l: Expr, r: Expr, s: State, env: Env, track: Tracked,
                held: bool)
    returns (s': State)
    requires WellFormed(b) && LowerExpr(b, Cmp(op, l, r)).Ok? && Within(LowerExpr(b, Cmp(op, l, r)).value.b, m)
    requires Runnable(m.h, Cmp(op, l, r)) && Ready(m, b, s, env, track, held)
    ensures ExprRan(m, b, s, Cmp(op, l, r), env, LowerExpr(b, Cmp(op, l, r)).value, s', track, held)
    decreases Cmp(op, l, r), 1
  {
    hide *;
    var e := Cmp(op, l, r);
    CmpUnfolds(b, op, l, r);
    CmpParts(m, op, l, r, env);
    ExprGrows(b, e);
    var cl := LowerExpr(b, l).value;
    var cr := LowerExpr(cl.b, r).value;
    var c := LowerExpr(b, e).value;
    PairStages(m.h, b, l, r, cl, cr);
    CmpStage(m, cr.b, op, cl.v, cr.v);
    var s1 := PairRuns(m, b, e, l, r, s, env, track, held, cl, cr);
    PairRanParts(m, b, s, l, r, env, cl, cr, s1, track, held);
    var x, y := Eval(m.h, l, env), Eval(m.h, r, env);
    s' := s1;
    if x.None? || y.None? {
      IsFailed(m, b, s, c, s', track);
    } else {
      s' := CmpOperates(m, cr.b, op, l, r, cl.v, cr.v, s1, x.value, y.value, c, track);
      ComputesAfter(m, b, s, cr.b, s1, c, s', Eval(m.h, e, env), track);
      BoolHasType(CompareValue(m.h, !IsVariant(l) && !IsVariant(r), op, x.value, y.value));
    }
    if held {
      ResultRootless(m, b, s, e, env, c, s', track);
      OperationStored(m.h, b, s, e, l, r, env, cl, cr, s1, c, s', track);
    }
    IsRan(m, b, s, e, env, c, s', track, held);
  }

  // ---------- Method calls ----------

  /** Arguments that can be used unless the storage of one has ended already. */
  ghost predicate AllStored(h: Host, s: State, es: seq<Expr>, env: Env, c: Arguments, s': State) {
    && (RootedAll(es) ==> s'.dangling == s.dangling)
    && (EvalAll(h, es, env).Some? ==>
          && (s'.dangling <==> s.dangling || DanglesAny(h, es, env))
          && (AllUsable(s', c.vs) <==> !GoneAny(h, es, env)))
  }

  /** What running the arguments of a call does. */
  ghost predicate ArgsRan(m: Machine, b: Builder, s: State, es: seq<Expr>, env: Env, c: Arguments, s': State,
                          track: Tracked, held: bool) {
    var xs := EvalAll(m.h, es, env);
    && s'.out == s.out
    && (xs.None? ==> Reaches(m, End(b, s), Done(s')) && (track.exact ==> !s'.recreated))
    && (xs.Some? ==>
          && Reaches(m, End(b, s), End(c.b, s')) && AgreeBelow(s, s', b.next)
          && Args(c.b, s', c.vs, xs.value, track) && Alive(c.b, s', track))
    && (held ==> AllStored(m.h, s, es, env, c, s'))
  }

  lemma ExprsUnfold(b: Builder, es: seq<Expr>)
    requires LowerExprs(b, es).Ok? && es != []
    ensures LowerExpr(b, es[0]).Ok?
    ensures var c := LowerExpr(b, es[0]).value;
            && LowerExprs(c.b, es[1..]).Ok?
            && var cs := LowerExprs(c.b, es[1..]).value;
               LowerExprs(b, es).value == Arguments([c.v] + cs.vs, cs.b)
  {
    hide LowerExpr;
  }

  /** What lowering arguments guarantees, whatever they contain. */
  lemma ExprsGrow(b: Builder, es: seq<Expr>)
    requires WellFormed(b) && LowerExprs(b, es).Ok?
    ensures var c := LowerExprs(b, es).value;
            && WellFormed(c.b) && Open(c.b) && Grows(b, c.b) && CountsKept(b, c.b) && c.b.over == b.over
            && b.next <= c.b.next
  {
    hide LowerExprs, ReleasableArgs, KeysMatch, Owes, OwedForAll, CountsKept;
    var c := LowerExprs(b, es).value;
    LowerExprsGrown(b, es, {}, false);
    OwesCounts(b, c.b, OwedForAll(c.vs), false);
  }

  lemma EvalAllParts(m: Machine, es: seq<Expr>, env: Env)
    requires es != []
    ensures var x, xs := Eval(m.h, es[0], env), EvalAll(m.h, es[1..], env);
            EvalAll(m.h, es, env) == if x.None? || xs.None? then None else Some([x.value] + xs.value)
    ensures RunnableAll(m.h, es) ==> Runnable(m.h, es[0]) && RunnableAll(m.h, es[1..])
  {
    hide Eval, Runnable;
  }

  lemma {:induction false} ExprsRuns(m: Machine, b: Builder, es: seq<Expr>, s: State, env: Env, track: Tracked,
                                     held: bool)
    returns (s': State)
    requires WellFormed(b) && LowerExprs(b, es).Ok? && Within(LowerExprs(b, es).value.b, m)
    requires RunnableAll(m.h, es) && Ready(m, b, s, env, track, held)
    ensures ArgsRan(m, b, s, es, env, LowerExprs(b, es).value, s', track, held)
    decreases es, 0
  {
    if es == [] {
      s' := s;
      ReachesSelf(m, End(b, s));
    } else {
      hide *;
      ExprsUnfold(b, es);
      EvalAllParts(m, es, env);
      ExprGrows(b, es[0]);
      var c := LowerExpr(b, es[0]).value;
      var cs := LowerExprs(c.b, es[1..]).value;
      ExprsGrow(c.b, es[1..]);
      WithinGrows(c.b, cs.b, m);
      var s1 := ExprRuns(m, b, es[0], s, env, track, held);
      RanParts(m, b, s, es[0], env, c, s1, track, held);
      var x, xs := Eval(m.h, es[0], env), EvalAll(m.h, es[1..], env);
      if x.None? {
        s' := s1;
        FailedParts(m, b, s, c, s', track);
        if held { HeadNotStored(m.h, b, s, es, env, c, LowerExprs(b, es).value, s', track); }
      } else {
        ComputedParts(m, b, s, c, s1, x.value, track);
        ReadyKept(m, b, c.b, s, s1, env, track, held);
        IsOperand(c.b, s1, c.v, x.value, track);
        s' := ExprsRuns(m, c.b, es[1..], s1, env, track, held);
        ArgsThen(m, b, s, c, s1, es[1..], env, cs, s', x.value, track, held);
        if held {
          if xs.Some? { OperandKept(s1, s', c.b.next, c.v); }
          AllAreStored(m.h, b, s, es, env, c, s1, cs, s', track);
        }
      }
      IsArgsRan(m, b, s, es, env, LowerExprs(b, es).value, s', track, held);
    }
  }

  lemma HeadNotStored(h: Host, b: Builder, s: State, es: seq<Expr>, env: Env, c: Computed, cs: Arguments, s': State,
                      track: Tracked)
    requires es != [] && Stored(h, b, s, es[0], env, c, s', track) && Eval(h, es[0], env).None?
    ensures AllStored(h, s, es, env, cs, s')
  {
    hide Placed, Eval, Dangles, AllUsable, Rooted;
  }

  /** The first argument is still usable, or gone, after the others have been computed. */
  lemma AllAreStored(h: Host, b: Builder, s: State, es: seq<Expr>, env: Env, c: Computed, s1: State, cs: Arguments,
                     s': State, track: Tracked)
    requires es != [] && Stored(h, b, s, es[0], env, c, s1, track) && Eval(h, es[0], env).Some?
    requires AllStored(h, s1, es[1..], env, cs, s') && Alive(c.b, s1, track) && Proper(s1, c.v, track)
    requires CountsKept(b, c.b) && CountsKept(c.b, cs.b) && (IsVariant(es[0]) ==> c.v.Reg? && c.v.ty.VariantPtr?)
    requires EvalAll(h, es[1..], env).Some? ==>
               Alive(cs.b, s', track) && AgreeBelow(s1, s', c.b.next) && RootOf(s', c.v) == RootOf(s1, c.v)
    ensures AllStored(h, s, es, env, Arguments([c.v] + cs.vs, cs.b), s')
  {
    hide Alive, CountsKept, AgreeBelow, Eval, RootOf, Counted, Usable, AllUsable, Dangles, Placed, Gone, IsVariant,
         Rooted;
    if EvalAll(h, es[1..], env).Some? {
      CountsKeptTrans(b, c.b, cs.b);
      UsableUnlessGone(h, b, es[0], env, c, s1, cs.b, s', track);
      AllUsableCons(s', c.v, cs.vs);
    }
  }

  lemma FailedParts(m: Machine, b: Builder, s: State, c: Computed, s': State, track: Tracked)
    requires Computes(m, b, s, c, s', None, track)
    ensures s'.out == s.out && Reaches(m, End(b, s), Done(s')) && (track.exact ==> !s'.recreated)
  {
  }

  lemma ArgsThen(m: Machine, b: Builder, s: State, c: Computed, s1: State, es: seq<Expr>, env: Env, cs: Arguments,
                 s2: State, x: Value, track: Tracked, held: bool)
    requires s1.out == s.out && Reaches(m, End(b, s), End(c.b, s1)) && AgreeBelow(s, s1, b.next)
    requires b.next <= c.b.next <= cs.b.next
    requires Operands(c.b, s1, c.v, x, c.v, x, track) && CountsKept(c.b, cs.b)
    requires ArgsRan(m, c.b, s1, es, env, cs, s2, track, held)
    ensures s2.out == s.out && (held ==> AllStored(m.h, s1, es, env, cs, s2))
    ensures EvalAll(m.h, es, env).None? ==> Reaches(m, End(b, s), Done(s2)) && (track.exact ==> !s2.recreated)
    ensures EvalAll(m.h, es, env).Some? ==>
              && Reaches(m, End(b, s), End(cs.b, s2)) && AgreeBelow(s, s2, b.next)
              && Args(cs.b, s2, [c.v] + cs.vs, [x] + EvalAll(m.h, es, env).value, track) && Alive(cs.b, s2, track)
              && AgreeBelow(s1, s2, c.b.next)
  {
    hide Args, Reaches, End, Operands, AgreeBelow, Alive, CountsKept, EvalAll, AllStored;
    if EvalAll(m.h, es, env).Some? {
      OperandsKept(c.b, cs.b, s1, s2, c.v, x, track);
      ArgsCons(cs.b, s2, c.v, x, cs.vs, EvalAll(m.h, es, env).value, track);
      ReachesTrans(m, End(b, s), End(c.b, s1), End(cs.b, s2));
      AgreeTrans(s, s1, s2, b.next, c.b.next);
    } else {
      ReachesTrans(m, End(b, s), End(c.b, s1), Done(s2));
    }
  }

  lemma IsArgsRan(m: Machine, b: Builder, s: State, es: seq<Expr>, env: Env, c: Arguments, s': State, track: Tracked,
                  held: bool)
    requires s'.out == s.out && (held ==> AllStored(m.h, s, es, env, c, s'))
    requires EvalAll(m.h, es, env).None? ==> Reaches(m, End(b, s), Done(s')) && (track.exact ==> !s'.recreated)
    requires EvalAll(m.h, es, env).Some? ==>
               && Reaches(m, End(b, s), End(c.b, s')) && AgreeBelow(s, s', b.next)
               && Args(c.b, s', c.vs, EvalAll(m.h, es, env).value, track) && Alive(c.b, s', track)
    ensures ArgsRan(m, b, s, es, env, c, s', track, held)
  {
    hide Args, Reaches, End, AgreeBelow, Alive, EvalAll, AllStored;
  }

  lemma CallUnfolds(b: Builder, f: string, args: seq<Expr>)
    requires LowerExpr(b, Call(f, args)).Ok?
    ensures LowerExprs(b, args).Ok?
    ensures LowerExpr(b, Call(f, args)) == MethodCall(LowerExprs(b, args).value.b, f, LowerExprs(b, args).value.vs)
  {
    hide MethodCall;
  }

  lemma CallParts(m: Machine, f: string, args: seq<Expr>, env: Env)
    requires Runnable(m.h, Call(f, args))
    ensures RunnableAll(m.h, args) && IsVariant(Call(f, args))
    ensures var xs := EvalAll(m.h, args, env);
            Eval(m.h, Call(f, args), env) == if xs.None? then None else m.h.call(f, xs.value)
  {
    hide EvalAll, RunnableAll;
  }

  lemma CallStage(m: Machine, b: Builder, f: string, vs: seq<Operand>)
    requires Open(b) && MethodCall(b, f, vs).Ok? && Within(MethodCall(b, f, vs).value.b, m)
    ensures Within(b, m)
  {
    hide *;
    MethodUnfolds(b, f, vs);
    var ws := WrapAll(b, vs);
    WrapAllStage(m, b, vs);
    MethodStage(m, ws.b, CallMethod(ws.b.next, f, ws.vs), ws.b.next, ws.b.next + 1);
  }

  lemma ArgsRanParts(m: Machine, b: Builder, s: State, es: seq<Expr>, env: Env, c: Arguments, s': State, track: Tracked,
                     held: bool)
    requires ArgsRan(m, b, s, es, env, c, s', track, held)
    ensures s'.out == s.out && (held ==> AllStored(m.h, s, es, env, c, s'))
    ensures EvalAll(m.h, es, env).None? ==> Reaches(m, End(b, s), Done(s')) && (track.exact ==> !s'.recreated)
    ensures EvalAll(m.h, es, env).Some? ==>
               && Reaches(m, End(b, s), End(c.b, s')) && AgreeBelow(s, s', b.next)
               && Args(c.b, s', c.vs, EvalAll(m.h, es, env).value, track) && Alive(c.b, s', track)
  {
    hide Args, Reaches, End, AgreeBelow, Alive, EvalAll, AllStored;
  }

  lemma CallRuns(m: Machine, b: Builder, f: string, args: seq<Expr>, s: State, env: Env, track: Tracked, held: bool)
    returns (s': State)
    requires WellFormed(b) && LowerExpr(b, Call(f, args)).Ok? && Within(LowerExpr(b, Call(f, args)).value.b, m)
    requires Runnable(m.h, Call(f, args)) && Ready(m, b, s, env, track, held)
    ensures ExprRan(m, b, s, Call(f, args), env, LowerExpr(b, Call(f, args)).value, s', track, held)
    decreases Call(f, args), 1
  {
    hide *;
    var e := Call(f, args);
    CallUnfolds(b, f, args);
    CallParts(m, f, args, env);
    ExprsGrow(b, args);
    var cs := LowerExprs(b, args).value;
    var c := LowerExpr(b, e).value;
    CallStage(m, cs.b, f, cs.vs);
    var s1 := ExprsRuns(m, b, args, s, env, track, held);
    ArgsRanParts(m, b, s, args, env, cs, s1, track, held);
    var xs := EvalAll(m.h, args, env);
    s' := s1;
    if xs.None? {
      IsFailed(m, b, s, c, s', track);
    } else {
      s' := MethodCallRuns(m, cs.b, f, cs.vs, s1, xs.value, track);
      ComputesAfter(m, b, s, cs.b, s1, c, s', Eval(m.h, e, env), track);
    }
    if held { CallStored(m.h, b, s, f, args, env, cs, s1, c, s', track); }
    IsRan(m, b, s, e, env, c, s', track, held);
  }

  /** A call uses all its arguments. */
  lemma CallStored(h: Host, b: Builder, s: State, f: string, args: seq<Expr>, env: Env, cs: Arguments, s1: State,
                   c: Computed, s': State, track: Tracked)
    requires AllStored(h, s, args, env, cs, s1)
    requires if EvalAll(h, args, env).Some? then UsesAll(s1, s', cs.vs) && Single(c) else s' == s1
    ensures Stored(h, b, s, Call(f, args), env, c, s', track)
  {
    hide AllUsable, Single;
    LosesAnyIs(h, args, env);
    if RootedAll(args) { RootedAllStay(h, args, env); }
  }
}
