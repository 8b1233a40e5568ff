/** The graph that lowering builds is well formed: every block belongs to the function exactly
    once and ends in one terminator, whose targets are blocks of the function; and every
    register is defined by one instruction. */
module LoweringGraph {
  import opened Results
  import opened Ast
  import opened Ir
  import opened Lowering
  import opened LoweringFrames
  import opened LoweringLoops
  import opened LoweringStatements
  import opened LoweringTheorems

  predicate TargetsIn(t: Terminator, n: nat) {
    forall x :: x in Targets(t) ==> 0 < x < n
  }

  /** No branch leaves the function or enters it again. */
  predicate Closed(blocks: seq<Block>) {
    forall i :: 0 <= i < |blocks| && blocks[i].term.Some? ==> TargetsIn(blocks[i].term.value, |blocks|)
  }

  /** How often a block has been appended to the function. */
  function Copies(b: Builder, id: nat): nat {
    multiset(b.layout)[id]
  }

  function OneIf(c: bool): nat {
    if c then 1 else 0
  }

  /** No two instructions define the same register. */
  predicate DefinedOnce(blocks: seq<Block>) {
    forall i, k, j, l ::
      && 0 <= i < |blocks| && 0 <= k < |blocks[i].instrs| && 0 <= j < |blocks| && 0 <= l < |blocks[j].instrs|
      && (i != j || k != l) ==>
        Defs(blocks[i].instrs[k]) !! Defs(blocks[j].instrs[l])
  }

  /** No register is defined twice, and none that has not been reserved. */
  ghost predicate Single(b: Builder) {
    && DefinedOnce(b.blocks)
    && (forall i, k :: 0 <= i < |b.blocks| && 0 <= k < |b.blocks[i].instrs| ==>
          forall d :: d in Defs(b.blocks[i].instrs[k]) ==> d < b.next)
  }

  /** From a to b every new block was appended once, no branch leaves the function, and only
      new registers were defined. */
  ghost predicate Laid(a: Builder, b: Builder) {
    && |a.blocks| <= |b.blocks| && a.layout <= b.layout
    && (forall id: nat :: Copies(b, id) == Copies(a, id) + OneIf(|a.blocks| <= id < |b.blocks|))
    && (Closed(a.blocks) ==> Closed(b.blocks))
    && (Single(a) ==> Single(b))
  }

  lemma LaidTrans(a: Builder, b: Builder, c: Builder)
    requires Laid(a, b) && Laid(b, c)
    ensures Laid(a, c)
  {
  }

  /** Without new instructions nothing is defined; new blocks are empty. */
  lemma SameInstructions(a: Builder, b: Builder)
    requires |a.blocks| <= |b.blocks| && a.next <= b.next
    requires forall i :: 0 <= i < |a.blocks| ==> b.blocks[i].instrs == a.blocks[i].instrs
    requires forall i :: |a.blocks| <= i < |b.blocks| ==> b.blocks[i].instrs == []
    ensures Single(a) ==> Single(b)
  {
  }

  /** Counts and overridden variables are not part of the graph. */
  lemma SameGraph(a: Builder, b: Builder)
    requires b.layout == a.layout && b.blocks == a.blocks && b.next >= a.next
    ensures Laid(a, b)
  {
    SameInstructions(a, b);
    hide Single;
  }

  /** An instruction defines registers reserved for it. */
  predicate Defines(i: Instr, low: nat, high: nat) {
    forall d :: d in Defs(i) ==> low <= d < high
  }

  lemma EmitSingle(b: Builder, n: nat, i: Instr)
    requires Single(b) && Defines(i, b.next, b.next + n)
    ensures Single(Emit(Fresh(b, n), i))
  {
    hide Defs;
  }

  lemma EmitLaid(b: Builder, n: nat, i: Instr)
    requires Defines(i, b.next, b.next + n)
    ensures Laid(b, Emit(Fresh(b, n), i))
  {
    if Single(b) { EmitSingle(b, n, i); }
    hide Single, Defines;
  }

  /** Two instructions that share the registers reserved before the first. */
  lemma EmitTwoLaid(b: Builder, n: nat, i: Instr, j: Instr)
    requires Defines(i, b.next, b.next + n) && Defines(j, b.next, b.next + n) && Defs(i) !! Defs(j)
    ensures Laid(b, Emit(Emit(Fresh(b, n), i), j))
  {
    if Single(b) {
      EmitSingle(b, n, i);
      EmitSecond(b, n, i, j);
    }
    hide Single, Defines;
  }

  lemma EmitSecond(b: Builder, n: nat, i: Instr, j: Instr)
    requires Single(b) && Single(Emit(Fresh(b, n), i))
    requires Defines(i, b.next, b.next + n) && Defines(j, b.next, b.next + n) && Defs(i) !! Defs(j)
    ensures Single(Emit(Emit(Fresh(b, n), i), j))
  {
    hide Defs;
  }

  lemma SetRefLaid(b: Builder, v: Operand, n: int)
    ensures Laid(b, SetRef(b, v, n))
  {
    SameGraph(b, SetRef(b, v, n));
  }

  lemma LaidSelf(b: Builder)
    ensures Laid(b, b)
  {
    SameGraph(b, b);
  }

  lemma ReleaseLaid(b: Builder, v: Operand)
    requires GoesOutOfScope(b, v).Ok?
    ensures Laid(b, GoesOutOfScope(b, v).value)
  {
    var b' := SetRef(b, v, b.refs[v] - 1);
    SameGraph(b, b);
    SameGraph(b, b');
    EmitLaid(b', 0, CallDestruct(v));
    assert Fresh(b', 0) == b';
    hide Laid;
    LaidTrans(b, b', Emit(b', CallDestruct(v)));
  }

  lemma CheckLaid(b: Builder, cond: Operand)
    ensures Laid(b, ReturnIfFails(b, cond))
  {
    var f := ReturnIfFails(b, cond);
    var n := |b.blocks|;
    SameInstructions(b, f);
    hide Single;
    forall id: nat
      ensures Copies(f, id) == Copies(b, id) + OneIf(n <= id < |f.blocks|)
    {
      assert f.layout == b.layout + [n] + [n + 1];
    }
  }

  lemma CheckedLaid(b: Builder, ok: nat, call: Instr)
    requires Defines(call, b.next, b.next + 2)
    ensures Laid(b, CheckedCall(b, ok, call))
  {
    hide Laid, Emit, ReturnIfFails, Defines;
    EmitLaid(b, 2, call);
    CheckLaid(Emit(Fresh(b, 2), call), Reg(ok, I1));
    LaidTrans(b, Emit(Fresh(b, 2), call), CheckedCall(b, ok, call));
  }

  lemma WrapLaid(b: Builder, v: Operand)
    ensures Laid(b, WrapAsVariant(b, v).b)
  {
    if IsVariantOperand(v) {
      SameGraph(b, b);
    } else {
      var b1 := Emit(Fresh(b, 1), CallWrap(b.next, v));
      EmitLaid(b, 1, CallWrap(b.next, v));
      SetRefLaid(b1, Variant(b.next), -1);
      hide Laid;
      LaidTrans(b, b1, SetRef(b1, Variant(b.next), -1));
    }
  }

  lemma WrapBothLaid(b: Builder, l: Operand, r: Operand)
    ensures Laid(b, WrapBoth(b, l, r).b)
  {
    hide Laid, WrapAsVariant;
    WrapLaid(b, l);
    WrapLaid(WrapAsVariant(b, l).b, r);
    LaidTrans(b, WrapAsVariant(b, l).b, WrapBoth(b, l, r).b);
  }

  lemma BothReleaseLaid(b: Builder, l: Operand, r: Operand)
    requires BothGoOutOfScope(b, l, r).Ok?
    ensures Laid(b, BothGoOutOfScope(b, l, r).value)
  {
    hide Laid, GoesOutOfScope;
    ReleaseLaid(b, l);
    ReleaseLaid(GoesOutOfScope(b, l).value, r);
    LaidTrans(b, GoesOutOfScope(b, l).value, BothGoOutOfScope(b, l, r).value);
  }

  lemma BinaryLaid(b: Builder, op: BinaryOp, l: Operand, r: Operand)
    requires BinResult(b, op, l, r).Ok?
    ensures Laid(b, BinResult(b, op, l, r).value.b)
  {
    hide Laid, WrapBoth, CheckedCall, BothGoOutOfScope, Convert, Emit;
    if IsVariantOperand(l) || IsVariantOperand(r) {
      var w := WrapBoth(b, l, r);
      var call := CallBinary(w.b.next, w.b.next + 1, op, w.l, w.r);
      var b1 := CheckedCall(w.b, w.b.next, call);
      var b2 := SetRef(b1, Variant(w.b.next + 1), 1);
      WrapBothLaid(b, l, r);
      CheckedLaid(w.b, w.b.next, call);
      SetRefLaid(b1, Variant(w.b.next + 1), 1);
      BothReleaseLaid(b2, w.l, w.r);
      LaidTrans(b, w.b, b1);
      LaidTrans(b, b1, b2);
      LaidTrans(b, b2, BinResult(b, op, l, r).value.b);
    } else if IsIntegerOperand(l) && IsIntegerOperand(r) {
      EmitLaid(b, 1, IntOp(b.next, op, l, r));
    } else {
      ConvertBothLaid(b, l, r);
      var cl := Convert(b, l).value;
      var cr := Convert(cl.b, r).value;
      EmitLaid(cr.b, 1, FloatOp(cr.b.next, op, cl.v, cr.v));
      LaidTrans(b, cr.b, BinResult(b, op, l, r).value.b);
    }
  }

  lemma ConvertLaid(b: Builder, v: Operand)
    requires Convert(b, v).Ok?
    ensures Laid(b, Convert(b, v).value.b)
  {
    if TypeOfOperand(v).DoubleTy? {
      SameGraph(b, b);
    } else {
      EmitLaid(b, 1, SIToFP(b.next, v));
    }
  }

  lemma ConvertBothLaid(b: Builder, l: Operand, r: Operand)
    requires Convert(b, l).Ok? && Convert(Convert(b, l).value.b, r).Ok?
    ensures Laid(b, Convert(Convert(b, l).value.b, r).value.b)
  {
    hide Laid, Convert;
    ConvertLaid(b, l);
    ConvertLaid(Convert(b, l).value.b, r);
    LaidTrans(b, Convert(b, l).value.b, Convert(Convert(b, l).value.b, r).value.b);
  }

  lemma ComparisonLaid(b: Builder, op: ComparisonOp, l: Operand, r: Operand)
    requires CmpResult(b, op, l, r).Ok?
    ensures Laid(b, CmpResult(b, op, l, r).value.b)
  {
    hide Laid, WrapBoth, CheckedCall, BothGoOutOfScope, Convert, Emit;
    if IsVariantOperand(l) || IsVariantOperand(r) {
      var w := WrapBoth(b, l, r);
      var call := CallCompare(w.b.next, w.b.next + 1, op, w.l, w.r);
      var b1 := CheckedCall(w.b, w.b.next, call);
      WrapBothLaid(b, l, r);
      CheckedLaid(w.b, w.b.next, call);
      BothReleaseLaid(b1, w.l, w.r);
      LaidTrans(b, w.b, b1);
      LaidTrans(b, b1, CmpResult(b, op, l, r).value.b);
    } else if IsIntegerOperand(l) && IsIntegerOperand(r) {
      EmitLaid(b, 1, if IsLogical(op) then Logic(b.next, op, l, r) else ICmp(b.next, op, l, r));
    } else {
      ConvertBothLaid(b, l, r);
      var cl := Convert(b, l).value;
      var cr := Convert(cl.b, r).value;
      EmitLaid(cr.b, 1, FCmp(cr.b.next, op, cl.v, cr.v));
      LaidTrans(b, cr.b, CmpResult(b, op, l, r).value.b);
    }
  }

  lemma UnaryLaid(b: Builder, op: UnaryOp, v: Operand)
    requires UnResult(b, op, v).Ok?
    ensures Laid(b, UnResult(b, op, v).value.b)
  {
    hide Laid, CheckedCall, GoesOutOfScope, Emit;
    if IsVariantOperand(v) {
      var call := CallUnary(b.next, b.next + 1, op, v);
      var b1 := CheckedCall(b, b.next, call);
      var b2 := SetRef(b1, Variant(b.next + 1), 1);
      CheckedLaid(b, b.next, call);
      SetRefLaid(b1, Variant(b.next + 1), 1);
      ReleaseLaid(b2, v);
      LaidTrans(b, b1, b2);
      LaidTrans(b, b2, UnResult(b, op, v).value.b);
    } else if op.NumericPositive? {
      LaidSelf(b);
    } else {
      EmitLaid(b, 1, if op.NumericNegative? then Neg(b.next, v) else Not(b.next, v));
    }
  }

  lemma {:induction false} WrapAllLaid(b: Builder, vs: seq<Operand>)
    ensures Laid(b, WrapAll(b, vs).b)
    decreases vs
  {
    hide Laid, WrapAsVariant;
    if vs == [] {
      LaidSelf(b);
    } else {
      WrapLaid(b, vs[0]);
      WrapAllLaid(WrapAsVariant(b, vs[0]).b, vs[1..]);
      LaidTrans(b, WrapAsVariant(b, vs[0]).b, WrapAll(b, vs).b);
    }
  }

  lemma MethodCallLaid(b: Builder, name: string, vs: seq<Operand>)
    ensures MethodCall(b, name, vs).Ok? && Laid(b, MethodCall(b, name, vs).value.b)
  {
    hide Laid, WrapAll, Emit, ReturnIfFails;
    var ws := WrapAll(b, vs);
    var dst := ws.b.next;
    var call, test := CallMethod(dst, name, ws.vs), NotNull(dst + 1, dst);
    var b1 := Emit(Fresh(ws.b, 2), call);
    var b2 := Emit(b1, test);
    var b3 := Emit(SetRef(b1, Variant(dst), 1), test);
    WrapAllLaid(b, vs);
    EmitTwoLaid(ws.b, 2, call, test);
    SetRefFirst(b1, Variant(dst), 1, test);
    SetRefLaid(b2, Variant(dst), 1);
    CheckLaid(b3, Reg(dst + 1, I1));
    LaidTrans(b, ws.b, b2);
    LaidTrans(b, b2, b3);
    LaidTrans(b, b3, ReturnIfFails(b3, Reg(dst + 1, I1)));
  }

  lemma SetRefFirst(b: Builder, v: Operand, n: int, i: Instr)
    ensures Emit(SetRef(b, v, n), i) == SetRef(Emit(b, i), v, n)
  {
  }

  lemma VariableLaid(b: Builder, x: string)
    requires LowerExpr(b, Var(x)).Ok?
    ensures Laid(b, LowerExpr(b, Var(x)).value.b)
  {
    if x in b.over {
      SameGraph(b, LowerExpr(b, Var(x)).value.b);
    } else {
      var b1 := Emit(Fresh(b, 1), CallLookup(b.next, x));
      EmitLaid(b, 1, CallLookup(b.next, x));
      SetRefLaid(b1, Variant(b.next), -1);
      hide Laid;
      LaidTrans(b, b1, SetRef(b1, Variant(b.next), -1));
    }
  }

  lemma AttributeLaid(b: Builder, n: string, base: Operand)
    requires AttributeLookup(b, n, base).Ok?
    ensures Laid(b, AttributeLookup(b, n, base).value.b)
  {
    hide Laid, Emit, GoesOutOfScope;
    var b1 := Emit(Fresh(b, 1), CallAttribute(b.next, base, n));
    var b2 := SetRef(b1, Variant(b.next), -1);
    EmitLaid(b, 1, CallAttribute(b.next, base, n));
    SetRefLaid(b1, Variant(b.next), -1);
    ReleaseLaid(b2, base);
    LaidTrans(b, b1, b2);
    LaidTrans(b, b2, AttributeLookup(b, n, base).value.b);
  }

  lemma {:induction false} ExprLaid(b: Builder, e: Expr)
    requires LowerExpr(b, e).Ok?
    ensures Laid(b, LowerExpr(b, e).value.b)
    decreases e
  {
    hide Laid, VariantBinary, NativeBinaryOp, VariantComparison, NativeComparison, VariantUnary, NativeUnaryOp,
         MethodCall,
         AttributeLookup, VariableLookup, NewReference;
    match e
    case Var(x) => VariableLaid(b, x);
    case Attr(base, n) =>
      ExprLaid(b, base);
      var c := LowerExpr(b, base).value;
      AttributeLaid(c.b, n, c.v);
      LaidTrans(b, c.b, AttributeLookup(c.b, n, c.v).value.b);
    case Call(f, args) =>
      ExprsLaid(b, args);
      var c := LowerExprs(b, args).value;
      MethodCallLaid(c.b, f, c.vs);
      LaidTrans(b, c.b, MethodCall(c.b, f, c.vs).value.b);
    case Bin(op, l, r) =>
      var cl := LowerExpr(b, l).value;
      var cr := LowerExpr(cl.b, r).value;
      ExprLaid(b, l);
      ExprLaid(cl.b, r);
      LaidTrans(b, cl.b, cr.b);
      BinaryLaid(cr.b, op, cl.v, cr.v);
      LaidTrans(b, cr.b, BinResult(cr.b, op, cl.v, cr.v).value.b);
    case Un(op, s) =>
      ExprLaid(b, s);
      var c := LowerExpr(b, s).value;
      UnaryLaid(c.b, op, c.v);
      LaidTrans(b, c.b, UnResult(c.b, op, c.v).value.b);
    case Cmp(op, l, r) =>
      var cl := LowerExpr(b, l).value;
      var cr := LowerExpr(cl.b, r).value;
      ExprLaid(b, l);
      ExprLaid(cl.b, r);
      LaidTrans(b, cl.b, cr.b);
      ComparisonLaid(cr.b, op, cl.v, cr.v);
      LaidTrans(b, cr.b, CmpResult(cr.b, op, cl.v, cr.v).value.b);
    case _ => LaidSelf(b);
  }

  lemma {:induction false} ExprsLaid(b: Builder, es: seq<Expr>)
    requires LowerExprs(b, es).Ok?
    ensures Laid(b, LowerExprs(b, es).value.b)
    decreases es
  {
    hide Laid, LowerExpr;
    if es == [] {
      LaidSelf(b);
    } else {
      var c := LowerExpr(b, es[0]).value;
      ExprLaid(b, es[0]);
      ExprsLaid(c.b, es[1..]);
      LaidTrans(b, c.b, LowerExprs(c.b, es[1..]).value.b);
    }
  }

  // ---------- Statements ----------

  lemma TerminateLaid(b: Builder, t: Terminator)
    requires TargetsIn(t, |b.blocks|)
    ensures Laid(b, Terminate(b, t))
  {
    SameInstructions(b, Terminate(b, t));
    hide Single;
  }

  /** The three blocks of a conditional are appended one by one, the last two only when their
      turn comes. */
  lemma IfLaid(c: Builder, cond: Operand, b1: Builder, b2: Builder)
    requires |c.blocks| + 2 < |b1.blocks| && Laid(IfStart(c, cond), b1)
    requires |c.blocks| + 2 < |b2.blocks| && Laid(IfElse(b1, |c.blocks|), b2)
    ensures Laid(c, IfEnd(b2, |c.blocks|))
  {
    hide Single, Closed;
    var n := |c.blocks|;
    var s, e, f := IfStart(c, cond), IfElse(b1, n), IfEnd(b2, n);
    assert |s.blocks| == n + 3;
    assert s.layout == c.layout + [n];
    assert e.layout == b1.layout + [n + 1];
    assert f.layout == b2.layout + [n + 2];
    forall id: nat
      ensures Copies(f, id) == Copies(c, id) + OneIf(n <= id < |f.blocks|)
    {
      assert Copies(s, id) == Copies(c, id) + OneIf(id == n);
      assert Copies(b1, id) == Copies(s, id) + OneIf(n + 3 <= id < |b1.blocks|);
      assert Copies(e, id) == Copies(b1, id) + OneIf(id == n + 1);
      assert Copies(b2, id) == Copies(e, id) + OneIf(|b1.blocks| <= id < |b2.blocks|);
      assert Copies(f, id) == Copies(b2, id) + OneIf(id == n + 2);
    }
    IfClosed(c, cond, b1, b2);
    IfSingle(c, cond, b1, b2);
  }

  lemma IfSingle(c: Builder, cond: Operand, b1: Builder, b2: Builder)
    requires |c.blocks| + 2 < |b1.blocks| && (Single(IfStart(c, cond)) ==> Single(b1))
    requires |c.blocks| + 2 < |b2.blocks| && (Single(IfElse(b1, |c.blocks|)) ==> Single(b2))
    ensures Single(c) ==> Single(IfEnd(b2, |c.blocks|))
  {
    var n := |c.blocks|;
    SameInstructions(c, IfStart(c, cond));
    SameInstructions(b1, IfElse(b1, n));
    SameInstructions(b2, IfEnd(b2, n));
    hide Single;
  }

  lemma IfClosed(c: Builder, cond: Operand, b1: Builder, b2: Builder)
    requires |c.blocks| + 2 < |b1.blocks| && (Closed(IfStart(c, cond).blocks) ==> Closed(b1.blocks))
    requires |c.blocks| + 2 < |b2.blocks| && (Closed(IfElse(b1, |c.blocks|).blocks) ==> Closed(b2.blocks))
    ensures Closed(c.blocks) ==> Closed(IfEnd(b2, |c.blocks|).blocks)
  {
    if Closed(c.blocks) {
      var n := |c.blocks|;
      var s, e, f := IfStart(c, cond), IfElse(b1, n), IfEnd(b2, n);
      assert forall i :: n <= i < n + 3 ==> s.blocks[i].term.None?;
      assert Closed(s.blocks);
      assert forall i :: 0 <= i < |b1.blocks| && i != b1.cur ==> e.blocks[i] == b1.blocks[i];
      assert Closed(e.blocks);
      assert forall i :: 0 <= i < |b2.blocks| && i != b2.cur ==> f.blocks[i] == b2.blocks[i];
    }
  }

  lemma LoopStartLaid(c: Builder, parts: LoopParts)
    requires parts == PartsOf(c, parts.iterable)
    ensures Laid(c, LoopStart(c, parts))
  {
    var a := InitAppended(c, parts);
    var t := InitTested(c, parts);
    var br := CondBr(Reg(c.next + 2, I1), parts.loop, parts.loopElse);
    var e := Terminate(t, br);
    assert LoopStart(c, parts).blocks == e.blocks && LoopStart(c, parts).layout == e.layout;
    AppendedLaid(c, parts);
    var init, test := CallLoopInit(c.next, c.next + 1, parts.iterable), NotNull(c.next + 2, c.next);
    TestedKeeps(c, parts);
    hide Laid, InitAppended, InitTested, LoopStart, Terminate, Emit;
    EmitTwoLaid(a, 3, init, test);
    SameGraph(Emit(Emit(Fresh(a, 3), init), test), t);
    LaidTrans(a, Emit(Emit(Fresh(a, 3), init), test), t);
    TerminateLaid(t, br);
    LaidTrans(c, a, t);
    LaidTrans(c, t, e);
    SameGraph(e, LoopStart(c, parts));
    LaidTrans(c, e, LoopStart(c, parts));
  }

  lemma NewBlocksClosed(b: Builder, n: nat)
    ensures Closed(b.blocks) ==> Closed(NewBlocks(b, n).blocks)
  {
    assert forall i :: |b.blocks| <= i < |b.blocks| + n ==> NewBlocks(b, n).blocks[i].term.None?;
  }

  /** A new block that is appended at once. */
  lemma BlockLaid(b: Builder)
    ensures Laid(b, Append(NewBlocks(b, 1), |b.blocks|))
  {
    NewBlocksClosed(b, 1);
    SameInstructions(b, Append(NewBlocks(b, 1), |b.blocks|));
    hide Closed, Single;
  }

  lemma AppendedLaid(c: Builder, parts: LoopParts)
    requires parts == PartsOf(c, parts.iterable)
    ensures Laid(c, InitAppended(c, parts))
  {
    hide *;
    var n := |c.blocks|;
    var b1 := Append(NewBlocks(c, 1), n);
    var b2 := Append(NewBlocks(b1, 1), n + 1);
    var b3 := Append(NewBlocks(b2, 1), n + 2);
    AppendedAre(c, parts);
    BlockLaid(c);
    BlockLaid(b1);
    BlockLaid(b2);
    LaidTrans(c, b1, b2);
    LaidTrans(c, b2, b3);
  }

  lemma AppendedAre(c: Builder, parts: LoopParts)
    requires parts == PartsOf(c, parts.iterable)
    ensures var n := |c.blocks|;
            var b1 := Append(NewBlocks(c, 1), n);
            var b2 := Append(NewBlocks(b1, 1), n + 1);
            && |b1.blocks| == n + 1 && |b2.blocks| == n + 2
            && InitAppended(c, parts) == Append(NewBlocks(b2, 1), n + 2)
  {
    assert c.blocks + seq(3, _ => EMPTY_BLOCK)
      == ((c.blocks + seq(1, _ => EMPTY_BLOCK)) + seq(1, _ => EMPTY_BLOCK)) + seq(1, _ => EMPTY_BLOCK);
  }

  /** The test before a loop is two instructions. */
  lemma TestedKeeps(c: Builder, parts: LoopParts)
    requires parts == PartsOf(c, parts.iterable)
    ensures var a, t := InitAppended(c, parts), InitTested(c, parts);
            var init, test := CallLoopInit(c.next, c.next + 1, parts.iterable), NotNull(c.next + 2, c.next);
            var e := Emit(Emit(Fresh(a, 3), init), test);
            && a.next == c.next && |t.blocks| == |a.blocks| == |c.blocks| + 3
            && t.layout == e.layout && t.blocks == e.blocks && t.next == e.next
  {
  }

  lemma LoopGetLaid(p: Builder, meta: Meta, hasKey: bool, hasValue: bool, over: map<string, Operand>)
    ensures Laid(p, LoopGet(p, meta, VarsOf(p, hasKey, hasValue)).(over := over))
  {
    var vars := VarsOf(p, hasKey, hasValue);
    var i := CallLoopGet(meta.table, meta.pos, vars.key, vars.val);
    var n := (if vars.key.Some? then 1 else 0) + if vars.val.Some? then 1 else 0;
    var b1 := Emit(Fresh(p, n), i);
    var b2 := LoopGet(p, meta, vars).(over := over);
    assert b2.layout == b1.layout && b2.blocks == b1.blocks && b2.next == b1.next;
    hide Laid, Emit, LoopGet;
    EmitLaid(p, n, i);
    SameGraph(b1, b2);
    LaidTrans(p, b1, b2);
  }

  lemma DropLaid(b: Builder, vars: LoopVars, over: map<string, Operand>)
    requires DropVariables(b, vars).Ok?
    ensures Laid(b, DropVariables(b, vars).value.(over := over))
  {
    hide Laid, GoesOutOfScope;
    var b1 := b;
    LaidSelf(b);
    if vars.key.Some? {
      ReleaseLaid(b, Variant(vars.key.value));
      b1 := GoesOutOfScope(b, Variant(vars.key.value)).value;
    }
    var d := DropVariables(b, vars).value;
    if vars.val.Some? {
      ReleaseLaid(b1, Variant(vars.val.value));
      LaidTrans(b, b1, d);
    }
    SameGraph(d, d.(over := over));
    LaidTrans(b, d, d.(over := over));
  }

  lemma EmitKeeps(b: Builder, i: Instr)
    ensures |Emit(Fresh(b, 1), i).blocks| == |b.blocks|
  {
  }

  lemma LoopNextLaid(b: Builder, parts: LoopParts)
    requires parts.loopElse < |b.blocks| && LoopNext(b, parts).Ok? && 0 < parts.loop < |b.blocks|
    requires 0 < parts.after < |b.blocks|
    ensures Laid(b, LoopNext(b, parts).value)
  {
    var meta := b.meta[parts.iterable];
    var b1 := Emit(Fresh(b, 1), CallLoopNext(b.next, meta.table, meta.pos));
    var t := CondBr(Reg(b.next, I1), parts.loop, parts.after);
    hide Laid, Emit;
    EmitLaid(b, 1, CallLoopNext(b.next, meta.table, meta.pos));
    EmitKeeps(b, CallLoopNext(b.next, meta.table, meta.pos));
    TerminateLaid(b1, t);
    SameGraph(Terminate(b1, t), LoopNext(b, parts).value);
    LaidTrans(b, b1, Terminate(b1, t));
    LaidTrans(b, Terminate(b1, t), LoopNext(b, parts).value);
  }

  lemma LoopAfterLaid(b: Builder, after: nat, meta: map<Operand, Meta>)
    requires 0 < after < |b.blocks|
    ensures Laid(b, MoveTo(Terminate(b, Br(after)), after).(meta := meta))
  {
    TerminateLaid(b, Br(after));
    hide Laid;
    SameGraph(Terminate(b, Br(after)), MoveTo(Terminate(b, Br(after)), after).(meta := meta));
    LaidTrans(b, Terminate(b, Br(after)), MoveTo(Terminate(b, Br(after)), after).(meta := meta));
  }

  lemma LaidMore(a: Builder, b: Builder)
    requires Laid(a, b)
    ensures |a.blocks| <= |b.blocks|
  {
  }

  /** A loop's own steps, around its body and its else body. */
  lemma LoopLaid(l: Loop)
    requires Staged(l) && Laid(l.b, l.c.b) && Laid(l.body, l.b3) && Laid(l.b5, l.b6)
    ensures LowerStmt(l.b, For(l.k, l.v, l.it, l.a, l.els)).Ok? ==>
              Laid(l.b, LowerStmt(l.b, For(l.k, l.v, l.it, l.a, l.els)).value)
  {
    hide *;
    StagedParts(l);
    var parts, vars := PartsIn(l), VarsIn(l);
    PartsAre(l);
    BlocksOfLoop(l);
    LoopStartLaid(l.c.b, parts);
    LoopGetLaid(l.p, parts.meta, l.k.Some?, l.v.Some?, l.body.over);
    DropLaid(l.b3, vars, l.b4.over);
    LaidTrans(l.b, l.c.b, l.p);
    LaidTrans(l.b, l.p, l.body);
    LaidTrans(l.b, l.body, l.b3);
    LaidTrans(l.b, l.b3, l.b4);
    LaidTrans(l.p, l.body, l.b3);
    LaidTrans(l.p, l.b3, l.b4);
    LaidMore(l.p, l.b4);
    LoopNextLaid(l.b4, parts);
    LaidTrans(l.b, l.b4, l.b5);
    LaidTrans(l.b, l.b5, l.b6);
    EndOfLoop(l);
    LoopAfterLaid(l.b6, parts.after, EndOf(l).meta);
    LaidTrans(l.b, l.b6, EndOf(l));
    if GoesOutOfScope(EndOf(l), l.c.v).Ok? {
      ReleaseLaid(EndOf(l), l.c.v);
      LaidTrans(l.b, EndOf(l), GoesOutOfScope(EndOf(l), l.c.v).value);
    }
  }

  lemma BlocksOfLoop(l: Loop)
    requires l.p == LoopStart(l.c.b, PartsIn(l))
    ensures 0 < PartsIn(l).loop < |l.p.blocks| && 0 < PartsIn(l).after < |l.p.blocks|
  {
  }

  lemma EndOfLoop(l: Loop)
    requires PartsIn(l).after < |l.b6.blocks|
    ensures EndOf(l) == MoveTo(Terminate(l.b6, Br(PartsIn(l).after)), PartsIn(l).after).(meta := EndOf(l).meta)
  {
  }

  lemma {:induction false} StmtLaid(b: Builder, t: AST)
    requires LowerStmt(b, t).Ok?
    ensures Laid(b, LowerStmt(b, t).value)
    decreases t, 1
  {
    match t
    case Statements(l) =>
      hide Laid;
      StmtsLaid(b, l);
    case Raw(text) =>
      hide Laid, Emit;
      EmitLaid(b, 0, CallPrint(ConstString(text)));
      assert Fresh(b, 0) == b;
    case Print(e) => PrintLaid(b, e);
    case If(c, a, els) => ConditionalLaid(b, c, a, els);
    case For(k, v, it, a, els) => ForLaid(b, k, v, it, a, els);
  }

  lemma PrintLaid(b: Builder, e: Expr)
    requires LowerStmt(b, Print(e)).Ok?
    ensures Laid(b, LowerStmt(b, Print(e)).value)
  {
    hide Laid, Emit, LowerExpr, GoesOutOfScope;
    var c := LowerExpr(b, e).value;
    var b1 := Emit(c.b, CallPrint(c.v));
    ExprLaid(b, e);
    EmitLaid(c.b, 0, CallPrint(c.v));
    assert Fresh(c.b, 0) == c.b;
    LaidTrans(b, c.b, b1);
    if IsVariantOperand(c.v) {
      ReleaseLaid(b1, c.v);
      LaidTrans(b, b1, GoesOutOfScope(b1, c.v).value);
    }
  }

  lemma ConditionalLaid(b: Builder, cond: Expr, a: AST, els: Option<AST>)
    requires LowerStmt(b, If(cond, a, els)).Ok?
    ensures Laid(b, LowerStmt(b, If(cond, a, els)).value)
    decreases If(cond, a, els), 0
  {
    hide *;
    var c, s, b1, e, b2 := IfUnfolds(b, cond, a, els);
    ExprLaid(b, cond);
    StmtLaid(s, a);
    OptLaid(e, els);
    IfLaid(c.b, c.v, b1, b2);
    LaidTrans(b, c.b, IfEnd(b2, |c.b.blocks|));
  }

  lemma ForLaid(b: Builder, k: Option<string>, v: Option<string>, it: Expr, a: AST, els: Option<AST>)
    requires LowerStmt(b, For(k, v, it, a, els)).Ok?
    ensures Laid(b, LowerStmt(b, For(k, v, it, a, els)).value)
    decreases For(k, v, it, a, els), 0
  {
    hide *;
    var c, p, body, b3, b4, b5, b6 := LoopUnfolds(b, k, v, it, a, els);
    var l := Loop(b, k, v, it, a, els, c, p, body, b3, b4, b5, b6);
    StagedIs(l);
    ExprLaid(b, it);
    StmtLaid(body, a);
    OptLaid(b5, els);
    LoopLaid(l);
  }

  lemma {:induction false} OptLaid(b: Builder, o: Option<AST>)
    requires LowerOpt(b, o).Ok?
    ensures Laid(b, LowerOpt(b, o).value)
    decreases o, 0
  {
    hide Laid;
    match o
    case None => LaidSelf(b);
    case Some(t) => StmtLaid(b, t);
  }

  lemma {:induction false} StmtsLaid(b: Builder, l: seq<AST>)
    requires LowerStmts(b, l).Ok?
    ensures Laid(b, LowerStmts(b, l).value)
    decreases l, 0
  {
    hide Laid, LowerStmt;
    if l == [] {
      LaidSelf(b);
    } else {
      var b1 := LowerStmt(b, l[0]).value;
      StmtLaid(b, l[0]);
      StmtsLaid(b1, l[1..]);
      LaidTrans(b, b1, LowerStmts(b1, l[1..]).value);
    }
  }

  lemma LaidFromEntry(b: Builder)
    requires Laid(ENTRY, b)
    ensures Closed(b.blocks) && DefinedOnce(b.blocks) && |b.layout| > 0 && b.layout[0] == 0
    ensures forall id: nat :: multiset(b.layout)[id] == if id < |b.blocks| then 1 else 0
  {
    var b0 := ENTRY;
    assert b0.layout == [0] && Closed(b0.blocks) && Single(b0);
    assert Single(b);
    hide Single, DefinedOnce;
    assert b0.layout[0] == b.layout[0];
    forall id: nat
      ensures multiset(b.layout)[id] == if id < |b.blocks| then 1 else 0
    {
      assert Copies(b, id) == Copies(b0, id) + OneIf(1 <= id < |b.blocks|);
    }
  }

  lemma AllEnded(b: Builder)
    requires Grows(ENTRY, b)
    ensures var f := Terminate(b, RetVoid); forall i :: 0 <= i < |f.blocks| ==> f.blocks[i].term.Some?
  {
  }

  lemma ClosedAt(blocks: seq<Block>)
    requires Closed(blocks) && forall i :: 0 <= i < |blocks| ==> blocks[i].term.Some?
    ensures forall i :: 0 <= i < |blocks| ==> blocks[i].term.Some? && TargetsIn(blocks[i].term.value, |blocks|)
  {
  }

  lemma EntryWellFormed()
    ensures WellFormed(ENTRY)
  {
  }

  lemma AnythingBalanced(b: Builder, t: AST)
    ensures BalancedStmt(b, t, {}, false)
  {
  }

  /** The function of a template: its entry block comes first, every block belongs to it
      exactly once and ends in one terminator, every branch stays inside and none
      goes back to the entry, and no register is defined twice. */
  lemma FunctionIsWellFormed(t: AST)
    requires LowerTemplate(t).Ok?
    ensures var b := LowerTemplate(t).value;
            && (forall i :: 0 <= i < |b.blocks| ==>
                b.blocks[i].term.Some? && TargetsIn(b.blocks[i].term.value, |b.blocks|))
            && (forall id: nat :: multiset(b.layout)[id] == if id < |b.blocks| then 1 else 0)
            && |b.layout| > 0 && b.layout[0] == 0
            && DefinedOnce(b.blocks)
  {
    hide *;
    var b0 := ENTRY;
    TemplateUnfolds(t);
    var b1 := LowerStmt(b0, t).value;
    var b := LowerTemplate(t).value;
    EntryWellFormed();
    AnythingBalanced(b0, t);
    LowerStmtGrown(b0, t, {}, false);
    StmtGrownParts(b0, b1, false);
    StmtLaid(b0, t);
    ReturnLaid(b1);
    LaidTrans(b0, b1, b);
    LaidFromEntry(b);
    AllEnded(b1);
    ClosedAt(b.blocks);
  }

  lemma ReturnLaid(b: Builder)
    ensures Laid(b, Terminate(b, RetVoid))
  {
    TerminateLaid(b, RetVoid);
  }
}
