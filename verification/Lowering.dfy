/** Lowering to a graph of basic blocks, as functions on the state that the visitor, its
    bindings and the IR builder keep between calls.  LlvmVisitor.dfy has the same as classes
    that update that state in place. */
module Lowering {
  import opened Results
  import opened Ast
  import opened Ir

  /** Why lowering stops: the exceptions it throws, the operands LLVM rejects, and the null
      metadata of a loop whose iterable an inner loop iterated over as well. */
  datatype LoweringError =
    | UnimplementedCondition
    | UnsupportedInclude
    | VariableWithoutRefcount
    | InvalidOperands
    | LostLoopMetadata

  datatype Meta = Meta(table: nat, pos: nat)

  /** The function under construction: its blocks by number, the order in which they were
      appended to the function, the block at the insertion point, and the next unused
      register; the overridden variables; the active loops by iterable; and how many
      references to each variant are still to be released (-1 for never). */
  datatype BuilderState = BuilderState(
    blocks: seq<Block>,
    layout: seq<nat>,
    cur: nat,
    next: nat,
    over: map<string, Operand>,
    meta: map<Operand, Meta>,
    refs: map<Operand, int>)

  type Builder = b: BuilderState | b.cur < |b.blocks|
    witness BuilderState([Block([], None)], [0], 0, 0, map[], map[], map[])

  type Stmt = Result<Builder, LoweringError>

  /** An operand and the builder after computing it. */
  datatype Computed = Computed(v: Operand, b: Builder)
  type Lowered = Result<Computed, LoweringError>

  datatype Arguments = Arguments(vs: seq<Operand>, b: Builder)

  // ---------- The IR builder ----------

  const EMPTY_BLOCK := Block([], None)

  function Emit(b: Builder, i: Instr): Builder {
    b.(blocks := b.blocks[b.cur := b.blocks[b.cur].(instrs := b.blocks[b.cur].instrs + [i])])
  }

  /** Ends the block at the insertion point. */
  function Terminate(b: Builder, t: Terminator): Builder {
    b.(blocks := b.blocks[b.cur := b.blocks[b.cur].(term := Some(t))])
  }

  /** Creates n blocks that are not part of the function yet. */
  function NewBlocks(b: Builder, n: nat): Builder {
    b.(blocks := b.blocks + seq(n, _ => EMPTY_BLOCK))
  }

  function Append(b: Builder, block: nat): Builder {
    b.(layout := b.layout + [block])
  }

  function MoveTo(b: Builder, block: nat): Builder
    requires block < |b.blocks|
  {
    b.(cur := block)
  }

  /** Reserves n registers. */
  function Fresh(b: Builder, n: nat): Builder {
    b.(next := b.next + n)
  }

  // ---------- The bindings ----------

  function Variant(id: nat): Operand {
    Reg(id, VariantPtr)
  }

  function SetRef(b: Builder, v: Operand, n: int): Builder {
    b.(refs := b.refs[v := n])
  }

  /** `variableGoesOutOfScope`. */
  function GoesOutOfScope(b: Builder, v: Operand): (r: Stmt)
    ensures r.Ok? ==> |r.value.blocks| >= |b.blocks|
  {
    if v !in b.refs then Err(VariableWithoutRefcount)
    else if b.refs[v] == -1 then Ok(b)
    else
      var b' := SetRef(b, v, b.refs[v] - 1);
      Ok(if b.refs[v] == 1 then Emit(b', CallDestruct(v)) else b')
  }

  /** `getNewReferenceForVariable`. */
  function NewReference(b: Builder, v: Operand): (r: Stmt)
    ensures r.Ok? ==> |r.value.blocks| >= |b.blocks|
  {
    if v !in b.refs then Err(VariableWithoutRefcount)
    else Ok(if b.refs[v] == -1 then b else SetRef(b, v, b.refs[v] + 1))
  }

  /** `createRetVoidIfCallFails`. */
  function ReturnIfFails(b: Builder, cond: Operand): (r: Builder)
    ensures |r.blocks| >= |b.blocks|
  {
    var success, fail := |b.blocks|, |b.blocks| + 1;
    var b1 := Terminate(Append(Append(NewBlocks(b, 2), success), fail), CondBr(cond, success, fail));
    MoveTo(Terminate(MoveTo(b1, fail), RetVoid), success)
  }

  /** `wrapAsVariant`, for an operand that is not a variant already. */
  function WrapAsVariant(b: Builder, v: Operand): (r: Computed)
    ensures |r.b.blocks| >= |b.blocks|
  {
    if IsVariantOperand(v) then Computed(v, b)
    else
      var zval := Variant(b.next);
      Computed(zval, SetRef(Emit(Fresh(b, 1), CallWrap(b.next, v)), zval, -1))
  }

  function VariableLookup(b: Builder, name: string): (r: Computed)
    ensures |r.b.blocks| >= |b.blocks|
  {
    var v := Variant(b.next);
    Computed(v, SetRef(Emit(Fresh(b, 1), CallLookup(b.next, name)), v, -1))
  }

  function AttributeLookup(b: Builder, name: string, base: Operand): (r: Lowered)
    ensures r.Ok? ==> |r.value.b.blocks| >= |b.blocks|
  {
    var v := Variant(b.next);
    var b' :- GoesOutOfScope(SetRef(Emit(Fresh(b, 1), CallAttribute(b.next, base, name)), v, -1), base);
    Ok(Computed(v, b'))
  }

  datatype Wrapped = Wrapped(l: Operand, r: Operand, b: Builder)

  function WrapBoth(b: Builder, l: Operand, r: Operand): (w: Wrapped)
    ensures |w.b.blocks| >= |b.blocks|
  {
    var wl := WrapAsVariant(b, l);
    var wr := WrapAsVariant(wl.b, r);
    Wrapped(wl.v, wr.v, wr.b)
  }

  function BothGoOutOfScope(b: Builder, l: Operand, r: Operand): (res: Stmt)
    ensures res.Ok? ==> |res.value.blocks| >= |b.blocks|
  {
    var b' :- GoesOutOfScope(b, l);
    GoesOutOfScope(b', r)
  }

  /** A call that reports failure through register `ok`, and the early return. */
  function CheckedCall(b: Builder, ok: nat, call: Instr): (r: Builder)
    ensures |r.blocks| >= |b.blocks|
  {
    ReturnIfFails(Emit(Fresh(b, 2), call), Reg(ok, I1))
  }

  function VariantComparison(b: Builder, op: ComparisonOp, l: Operand, r: Operand): (res: Lowered)
    ensures res.Ok? ==> |res.value.b.blocks| >= |b.blocks|
  {
    var w := WrapBoth(b, l, r);
    var ok, dst := w.b.next, w.b.next + 1;
    var b' :- BothGoOutOfScope(CheckedCall(w.b, ok, CallCompare(ok, dst, op, w.l, w.r)), w.l, w.r);
    Ok(Computed(Reg(dst, I1), b'))
  }

  function VariantBinary(b: Builder, op: BinaryOp, l: Operand, r: Operand): (res: Lowered)
    ensures res.Ok? ==> |res.value.b.blocks| >= |b.blocks|
  {
    var w := WrapBoth(b, l, r);
    var ok, dst := w.b.next, w.b.next + 1;
    var b1 := SetRef(CheckedCall(w.b, ok, CallBinary(ok, dst, op, w.l, w.r)), Variant(dst), 1);
    var b' :- BothGoOutOfScope(b1, w.l, w.r);
    Ok(Computed(Variant(dst), b'))
  }

  function VariantUnary(b: Builder, op: UnaryOp, v: Operand): (r: Lowered)
    ensures r.Ok? ==> |r.value.b.blocks| >= |b.blocks|
  {
    var ok, dst := b.next, b.next + 1;
    var b1 := SetRef(CheckedCall(b, ok, CallUnary(ok, dst, op, v)), Variant(dst), 1);
    var b2 :- GoesOutOfScope(b1, v);
    Ok(Computed(Variant(dst), b2))
  }

  function WrapAll(b: Builder, vs: seq<Operand>): (r: Arguments)
    decreases vs
    ensures |r.b.blocks| >= |b.blocks|
  {
    if vs == [] then Arguments([], b)
    else
      var w := WrapAsVariant(b, vs[0]);
      var ws := WrapAll(w.b, vs[1..]);
      Arguments([w.v] + ws.vs, ws.b)
  }

  /** Only wrapped arguments go out of scope here, and they are never destroyed, so the loop
      over `valuesToDestroy` emits nothing. */
  function MethodCall(b: Builder, name: string, args: seq<Operand>): (r: Lowered)
    ensures r.Ok? ==> |r.value.b.blocks| >= |b.blocks|
  {
    var ws := WrapAll(b, args);
    var dst, ok := ws.b.next, ws.b.next + 1;
    var b1 := SetRef(Emit(Fresh(ws.b, 2), CallMethod(dst, name, ws.vs)), Variant(dst), 1);
    Ok(Computed(Variant(dst), ReturnIfFails(Emit(b1, NotNull(ok, dst)), Reg(ok, I1))))
  }

  // ---------- Operations on native operands ----------

  function Convert(b: Builder, v: Operand): (r: Lowered)
    ensures r.Ok? ==> |r.value.b.blocks| >= |b.blocks|
  {
    if TypeOfOperand(v).DoubleTy? then Ok(Computed(v, b))
    else if !IsIntegerOperand(v) then Err(InvalidOperands)
    else Ok(Computed(Reg(b.next, DoubleTy), Emit(Fresh(b, 1), SIToFP(b.next, v))))
  }

  function NativeBinaryOp(b: Builder, op: BinaryOp, l: Operand, r: Operand): (res: Lowered)
    ensures res.Ok? ==> |res.value.b.blocks| >= |b.blocks|
  {
    if IsIntegerOperand(l) && IsIntegerOperand(r) then
      if TypeOfOperand(l) != TypeOfOperand(r) then Err(InvalidOperands)
      else Ok(Computed(Reg(b.next, TypeOfOperand(l)), Emit(Fresh(b, 1), IntOp(b.next, op, l, r))))
    else
      var cl :- Convert(b, l);
      var cr :- Convert(cl.b, r);
      Ok(Computed(Reg(cr.b.next, DoubleTy), Emit(Fresh(cr.b, 1), FloatOp(cr.b.next, op, cl.v, cr.v))))
  }

  function NativeUnaryOp(b: Builder, op: UnaryOp, v: Operand): (r: Lowered)
    ensures r.Ok? ==> |r.value.b.blocks| >= |b.blocks|
  {
    if op.NumericPositive? then Ok(Computed(v, b))
    else if !IsIntegerOperand(v) then Err(InvalidOperands)
    else
      Ok(Computed(Reg(b.next, TypeOfOperand(v)),
                  Emit(Fresh(b, 1), if op.NumericNegative? then Neg(b.next, v) else Not(b.next, v))))
  }

  function NativeComparison(b: Builder, op: ComparisonOp, l: Operand, r: Operand): (res: Lowered)
    ensures res.Ok? ==> |res.value.b.blocks| >= |b.blocks|
  {
    if IsIntegerOperand(l) && IsIntegerOperand(r) then
      if TypeOfOperand(l) != TypeOfOperand(r) then Err(InvalidOperands)
      else
        Ok(Computed(Reg(b.next, if IsLogical(op) then TypeOfOperand(l) else I1),
                    Emit(Fresh(b, 1), if IsLogical(op) then Logic(b.next, op, l, r) else ICmp(b.next, op, l, r))))
    else
      var cl :- Convert(b, l);
      var cr :- Convert(cl.b, r);
      if IsLogical(op) then Err(InvalidOperands)
      else Ok(Computed(Reg(cr.b.next, I1), Emit(Fresh(cr.b, 1), FCmp(cr.b.next, op, cl.v, cr.v))))
  }

  // ---------- Expressions ----------

  function LowerExpr(b: Builder, e: Expr): (r: Lowered)
    ensures r.Ok? ==> |r.value.b.blocks| >= |b.blocks|
    decreases e
  {
    match e
    case Var(x) =>
      if x in b.over then
        var b' :- NewReference(b, b.over[x]);
        Ok(Computed(b.over[x], b'))
      else Ok(VariableLookup(b, x))
    case Attr(base, n) =>
      var c :- LowerExpr(b, base);
      AttributeLookup(c.b, n, c.v)
    case Call(m, args) =>
      var c :- LowerExprs(b, args);
      MethodCall(c.b, m, c.vs)
    case DoubleLit(d) => Ok(Computed(ConstDouble(d), b))
    case IntLit(i) => Ok(Computed(ConstInt(i), b))
    case BoolLit(t) => Ok(Computed(ConstBool(t), b))
    case StrLit(s) => Ok(Computed(ConstString(s), b))
    case Bin(op, l, r) =>
      var cl :- LowerExpr(b, l);
      var cr :- LowerExpr(cl.b, r);
      if IsVariantOperand(cl.v) || IsVariantOperand(cr.v) then VariantBinary(cr.b, op, cl.v, cr.v)
      else NativeBinaryOp(cr.b, op, cl.v, cr.v)
    case Un(op, s) =>
      var c :- LowerExpr(b, s);
      if IsVariantOperand(c.v) then VariantUnary(c.b, op, c.v) else NativeUnaryOp(c.b, op, c.v)
    case Cmp(op, l, r) =>
      var cl :- LowerExpr(b, l);
      var cr :- LowerExpr(cl.b, r);
      if IsVariantOperand(cl.v) || IsVariantOperand(cr.v) then VariantComparison(cr.b, op, cl.v, cr.v)
      else NativeComparison(cr.b, op, cl.v, cr.v)
  }

  function LowerExprs(b: Builder, es: seq<Expr>): (r: Result<Arguments, LoweringError>)
    ensures r.Ok? ==> |r.value.vs| == |es| && |r.value.b.blocks| >= |b.blocks|
    decreases es
  {
    if es == [] then Ok(Arguments([], b))
    else
      var c :- LowerExpr(b, es[0]);
      var cs :- LowerExprs(c.b, es[1..]);
      Ok(Arguments([c.v] + cs.vs, cs.b))
  }

  // ---------- Statements ----------

  /** Blocks n, n + 1 and n + 2 of an `if` are `then`, `else` and `ifcont`; the last two become
      part of the function when their turn comes. */
  function IfStart(b: Builder, cond: Operand): (r: Builder)
    ensures |r.blocks| == |b.blocks| + 3
  {
    var n := |b.blocks|;
    MoveTo(Terminate(Append(NewBlocks(b, 3), n), CondBr(cond, n, n + 1)), n)
  }

  function IfElse(b: Builder, n: nat): (r: Builder)
    requires n + 2 < |b.blocks|
    ensures |r.blocks| == |b.blocks|
  {
    MoveTo(Append(Terminate(b, Br(n + 2)), n + 1), n + 1)
  }

  function IfEnd(b: Builder, n: nat): (r: Builder)
    requires n + 2 < |b.blocks|
    ensures |r.blocks| == |b.blocks|
  {
    MoveTo(Append(Terminate(b, Br(n + 2)), n + 2), n + 2)
  }

  /** A loop once its iterable is computed: where its registers and blocks are. */
  datatype LoopParts = LoopParts(iterable: Operand, meta: Meta, loop: nat, loopElse: nat, after: nat)

  /** The registers of the loop variables. */
  datatype LoopVars = LoopVars(key: Option<nat>, val: Option<nat>)

  function PartsOf(b: Builder, iterable: Operand): LoopParts {
    LoopParts(iterable, Meta(b.next, b.next + 1), |b.blocks|, |b.blocks| + 1, |b.blocks| + 2)
  }

  /** The blocks of a loop and the test before it; the insertion point moves to the body. */
  function LoopStart(b: Builder, parts: LoopParts): (r: Builder)
    requires parts == PartsOf(b, parts.iterable)
    ensures |r.blocks| == |b.blocks| + 3
  {
    var b1 := Append(Append(Append(NewBlocks(b, 3), parts.loop), parts.loopElse), parts.after);
    var cond := b.next + 2;
    var b2 := Emit(Fresh(b1, 3), CallLoopInit(parts.meta.table, parts.meta.pos, parts.iterable));
    var b3 := Emit(b2.(meta := b2.meta[parts.iterable := parts.meta]), NotNull(cond, parts.meta.table));
    MoveTo(Terminate(b3, CondBr(Reg(cond, I1), parts.loop, parts.loopElse)), parts.loop)
  }

  function VarsOf(b: Builder, hasKey: bool, hasValue: bool): LoopVars {
    LoopVars(if hasKey then Some(b.next) else None,
             if hasValue then Some(if hasKey then b.next + 1 else b.next) else None)
  }

  /** `createForLoopGetVariables`: the key has to be destroyed, the value must not be. */
  function LoopGet(b: Builder, meta: Meta, vars: LoopVars): (r: Builder)
    ensures |r.blocks| == |b.blocks|
  {
    var b1 := if vars.key.Some? then Fresh(b, 1) else b;
    var b2 := if vars.val.Some? then Fresh(b1, 1) else b1;
    var b3 := Emit(b2, CallLoopGet(meta.table, meta.pos, vars.key, vars.val));
    var b4 := if vars.key.Some? then SetRef(b3, Variant(vars.key.value), 1) else b3;
    if vars.val.Some? then SetRef(b4, Variant(vars.val.value), -1) else b4
  }

  /** The variables overridden in the body of a loop. */
  function LoopOver(over: map<string, Operand>, key: Option<string>, value: Option<string>, vars: LoopVars)
    : map<string, Operand>
  {
    var o := if key.Some? && vars.key.Some? then over[key.value := Variant(vars.key.value)] else over;
    if value.Some? && vars.val.Some? then o[value.value := Variant(vars.val.value)] else o
  }

  function Restore(over: map<string, Operand>, name: Option<string>, outer: map<string, Operand>): map<string, Operand>
  {
    if name.None? then over
    else if name.value in outer then over[name.value := outer[name.value]]
    else over - {name.value}
  }

  function DropVariables(b: Builder, vars: LoopVars): (r: Stmt)
    ensures r.Ok? ==> |r.value.blocks| >= |b.blocks|
  {
    var b1 :- if vars.key.Some? then GoesOutOfScope(b, Variant(vars.key.value)) else Ok(b);
    if vars.val.Some? then GoesOutOfScope(b1, Variant(vars.val.value)) else Ok(b1)
  }

  /** After the body, with its variables released and restored: test for another iteration;
      the insertion point moves to the else body. */
  function LoopNext(b: Builder, parts: LoopParts): (r: Stmt)
    requires parts.loopElse < |b.blocks|
    ensures r.Ok? ==> |r.value.blocks| >= |b.blocks|
  {
    if parts.iterable !in b.meta then Err(LostLoopMetadata)
    else
      var meta := b.meta[parts.iterable];
      var b1 := Emit(Fresh(b, 1), CallLoopNext(b.next, meta.table, meta.pos));
      Ok(MoveTo(Terminate(b1, CondBr(Reg(b.next, I1), parts.loop, parts.after)), parts.loopElse))
  }

  /** After the else body. */
  function LoopEnd(b: Builder, parts: LoopParts): (r: Stmt)
    requires parts.after < |b.blocks|
    ensures r.Ok? ==> |r.value.blocks| >= |b.blocks|
  {
    var b1 := MoveTo(Terminate(b, Br(parts.after)), parts.after);
    GoesOutOfScope(b1.(meta := b1.meta - {parts.iterable}), parts.iterable)
  }

  function LowerStmt(b: Builder, t: AST): (r: Stmt)
    ensures r.Ok? ==> |r.value.blocks| >= |b.blocks|
    decreases t
  {
    match t
    case Statements(l) => LowerStmts(b, l)
    case Raw(text) => Ok(Emit(b, CallPrint(ConstString(text))))
    case Print(e) =>
      var c :- LowerExpr(b, e);
      var b1 := Emit(c.b, CallPrint(c.v));
      if IsVariantOperand(c.v) then GoesOutOfScope(b1, c.v) else Ok(b1)
    case If(cond, a, els) =>
      var c :- LowerExpr(b, cond);
      if !TypeOfOperand(c.v).I1? then Err(UnimplementedCondition)
      else
        var n := |c.b.blocks|;
        var b1 :- LowerStmt(IfStart(c.b, c.v), a);
        var b2 :- LowerOpt(IfElse(b1, n), els);
        Ok(IfEnd(b2, n))
    case For(k, v, it, a, els) =>
      var c :- LowerExpr(b, it);
      if !IsVariantOperand(c.v) then Err(InvalidOperands)
      else
        var parts := PartsOf(c.b, c.v);
        var b1 := LoopStart(c.b, parts);
        var vars := VarsOf(b1, k.Some?, v.Some?);
        var b2 := LoopGet(b1, parts.meta, vars);
        var b3 :- LowerStmt(b2.(over := LoopOver(b2.over, k, v, vars)), a);
        var b4 :- DropVariables(b3, vars);
        var b5 :- LoopNext(b4.(over := Restore(Restore(b4.over, k, b2.over), v, b2.over)), parts);
        var b6 :- LowerOpt(b5, els);
        LoopEnd(b6, parts)
    case Include(_, _, _) => Err(UnsupportedInclude)
  }

  function LowerOpt(b: Builder, o: Option<AST>): (r: Stmt)
    ensures r.Ok? ==> |r.value.blocks| >= |b.blocks|
    decreases o
  {
    match o
    case None => Ok(b)
    case Some(t) => LowerStmt(b, t)
  }

  function LowerStmts(b: Builder, l: seq<AST>): (r: Stmt)
    ensures r.Ok? ==> |r.value.blocks| >= |b.blocks|
    decreases l
  {
    if l == [] then Ok(b)
    else
      var b' :- LowerStmt(b, l[0]);
      LowerStmts(b', l[1..])
  }

  /** `functionSetup`. */
  const ENTRY: Builder := BuilderState([EMPTY_BLOCK], [0], 0, 0, map[], map[], map[])

  /** `LLVMVisitor::visit`. */
  function LowerTemplate(t: AST): Stmt {
    var b :- LowerStmt(ENTRY, t);
    Ok(Terminate(b, RetVoid))
  }
}
