/** The LLVM backend as it is written: a builder whose insertion point moves, bindings that
    keep loop metadata and reference counts, and a visitor that overrides variables.  Every
    method is proved to do what its function in Lowering.dfy says. */
module LlvmVisitors {
  import opened Results
  import opened Ast
  import opened Ir
  import opened Lowering

  /** LLVM's builder: where the next instruction goes, and the function so far. */
  class IRBuilder {
    var blocks: seq<Block>
    var layout: seq<nat>
    var cur: nat
    var next: nat

    ghost predicate Valid()
      reads this
    {
      cur < |blocks|
    }

    ghost function Snapshot(): Builder
      requires Valid()
      reads this
    {
      BuilderState(blocks, layout, cur, next, map[], map[], map[])
    }

    /** The function with its entry block, the insertion point inside. */
    constructor ()
      ensures Valid() && Snapshot() == ENTRY
    {
      blocks, layout, cur, next := [EMPTY_BLOCK], [0], 0, 0;
    }

    method Insert(i: Instr)
      requires Valid()
      modifies this`blocks
      ensures Valid() && Snapshot() == Emit(old(Snapshot()), i)
    {
      blocks := blocks[cur := blocks[cur].(instrs := blocks[cur].instrs + [i])];
    }

    /** `CreateCondBr`, `CreateBr` and `CreateRetVoid`. */
    method CreateTerminator(t: Terminator)
      requires Valid()
      modifies this`blocks
      ensures Valid() && Snapshot() == Terminate(old(Snapshot()), t)
    {
      blocks := blocks[cur := blocks[cur].(term := Some(t))];
    }

    /** `BasicBlock::Create`, several at once; they are not in the function yet. */
    method CreateBlocks(n: nat) returns (first: nat)
      requires Valid()
      modifies this`blocks
      ensures Valid() && Snapshot() == NewBlocks(old(Snapshot()), n) && first == old(|blocks|) && |blocks| == first + n
    {
      first := |blocks|;
      blocks := blocks + seq(n, _ => EMPTY_BLOCK);
    }

    /** `getBasicBlockList().push_back`, or creating a block inside a function. */
    method PushBack(block: nat)
      requires Valid()
      modifies this`layout
      ensures Valid() && Snapshot() == Append(old(Snapshot()), block)
    {
      layout := layout + [block];
    }

    method SetInsertPoint(block: nat)
      requires Valid() && block < |blocks|
      modifies this`cur
      ensures Valid() && Snapshot() == MoveTo(old(Snapshot()), block)
    {
      cur := block;
    }

    /** New registers, such as the results of `alloca`, `load` and calls. */
    method Reserve(n: nat) returns (first: nat)
      requires Valid()
      modifies this`next
      ensures Valid() && Snapshot() == Fresh(old(Snapshot()), n) && first == old(next)
    {
      first := next;
      next := next + n;
    }
  }

  class PHPBindings {
    const irBuilder: IRBuilder
    var forLoopMetadata: map<Operand, Meta>
    var variablesRefCount: map<Operand, int>

    ghost predicate Valid()
      reads this, irBuilder
    {
      irBuilder.Valid()
    }

    /** The state, together with the variables that the visitor overrides. */
    ghost function State(over: map<string, Operand>): Builder
      requires Valid()
      reads this, irBuilder
    {
      irBuilder.Snapshot().(over := over, meta := forLoopMetadata, refs := variablesRefCount)
    }

    constructor (irBuilder: IRBuilder)
      ensures this.irBuilder == irBuilder && forLoopMetadata == map[] && variablesRefCount == map[]
    {
      this.irBuilder := irBuilder;
      forLoopMetadata, variablesRefCount := map[], map[];
    }

    method CreateRetVoidIfCallFails(callResult: Operand, ghost over: map<string, Operand>)
      requires Valid()
      modifies irBuilder
      ensures Valid() && State(over) == ReturnIfFails(old(State(over)), callResult)
    {
      var success := irBuilder.CreateBlocks(2);
      irBuilder.PushBack(success);
      irBuilder.PushBack(success + 1);
      irBuilder.CreateTerminator(CondBr(callResult, success, success + 1));
      irBuilder.SetInsertPoint(success + 1);
      irBuilder.CreateTerminator(RetVoid);
      irBuilder.SetInsertPoint(success);
    }

    method CreatePrintCall(value: Operand, ghost over: map<string, Operand>)
      requires Valid()
      modifies irBuilder
      ensures Valid() && State(over) == Emit(old(State(over)), CallPrint(value))
    {
      irBuilder.Insert(CallPrint(value));
    }

    /** Counts a release; the last one destroys the variable. */
    method VariableGoesOutOfScope(v: Operand, ghost over: map<string, Operand>) returns (error: Option<LoweringError>)
      requires Valid()
      modifies this, irBuilder
      ensures Valid()
      ensures match GoesOutOfScope(old(State(over)), v)
              case Err(e) => error == Some(e)
              case Ok(b) => error == None && State(over) == b
    {
      if v !in variablesRefCount {
        return Some(VariableWithoutRefcount);
      }
      if variablesRefCount[v] != -1 {
        variablesRefCount := variablesRefCount[v := variablesRefCount[v] - 1];
        if variablesRefCount[v] == 0 {
          irBuilder.Insert(CallDestruct(v));
        }
      }
      return None;
    }

    method GetNewReferenceForVariable(v: Operand, ghost over: map<string, Operand>)
      returns (error: Option<LoweringError>)
      requires Valid()
      modifies this
      ensures Valid()
      ensures match NewReference(old(State(over)), v)
              case Err(e) => error == Some(e)
              case Ok(b) => error == None && State(over) == b
    {
      if v !in variablesRefCount {
        return Some(VariableWithoutRefcount);
      }
      if variablesRefCount[v] != -1 {
        variablesRefCount := variablesRefCount[v := variablesRefCount[v] + 1];
      }
      return None;
    }

    method WrapAsVariant(value: Operand, ghost over: map<string, Operand>) returns (zval: Operand)
      requires Valid()
      modifies this, irBuilder
      ensures Valid() && Computed(zval, State(over)) == Lowering.WrapAsVariant(old(State(over)), value)
    {
      if IsVariantOperand(value) {
        return value;
      }
      var id := irBuilder.Reserve(1);
      irBuilder.Insert(CallWrap(id, value));
      zval := Variant(id);
      variablesRefCount := variablesRefCount[zval := -1];
    }

    method CreateVariableLookup(name: string, ghost over: map<string, Operand>) returns (value: Operand)
      requires Valid()
      modifies this, irBuilder
      ensures Valid() && Computed(value, State(over)) == VariableLookup(old(State(over)), name)
    {
      var id := irBuilder.Reserve(1);
      irBuilder.Insert(CallLookup(id, name));
      value := Variant(id);
      variablesRefCount := variablesRefCount[value := -1];
    }

    method CreateGetAttribute(name: string, variable: Operand, ghost over: map<string, Operand>)
      returns (r: Result<Operand, LoweringError>)
      requires Valid()
      modifies this, irBuilder
      ensures Valid()
      ensures match AttributeLookup(old(State(over)), name, variable)
              case Err(e) => r == Err(e)
              case Ok(c) => r == Ok(c.v) && State(over) == c.b
    {
      hide GoesOutOfScope;
      var id := irBuilder.Reserve(1);
      irBuilder.Insert(CallAttribute(id, variable, name));
      assert State(over) == Emit(Fresh(old(State(over)), 1), CallAttribute(id, variable, name));
      hide Emit, SetRef;
      SetCount(Variant(id), -1, over);
      var error := VariableGoesOutOfScope(variable, over);
      return if error.Some? then Err(error.value) else Ok(Variant(id));
    }

    method BothGoOutOfScope(left: Operand, right: Operand, ghost over: map<string, Operand>)
      returns (error: Option<LoweringError>)
      requires Valid()
      modifies this, irBuilder
      ensures Valid()
      ensures match Lowering.BothGoOutOfScope(old(State(over)), left, right)
              case Err(e) => error == Some(e)
              case Ok(b) => error == None && State(over) == b
    {
      error := VariableGoesOutOfScope(left, over);
      if error.None? {
        error := VariableGoesOutOfScope(right, over);
      }
    }

    method WrapBoth(left: Operand, right: Operand, ghost over: map<string, Operand>) returns (l: Operand, r: Operand)
      requires Valid()
      modifies this, irBuilder
      ensures Valid() && Wrapped(l, r, State(over)) == Lowering.WrapBoth(old(State(over)), left, right)
    {
      hide Lowering.WrapAsVariant;
      l := WrapAsVariant(left, over);
      r := WrapAsVariant(right, over);
    }

    /** A call with two results, the first of which says whether it succeeded. */
    method CreateCheckedCall(ok: nat, call: Instr, ghost over: map<string, Operand>)
      requires Valid() && ok == irBuilder.next
      modifies irBuilder
      ensures Valid() && State(over) == CheckedCall(old(State(over)), ok, call)
    {
      var first := irBuilder.Reserve(2);
      irBuilder.Insert(call);
      assert State(over) == Emit(Fresh(old(State(over)), 2), call);
      hide Emit, ReturnIfFails;
      CreateRetVoidIfCallFails(Reg(first, I1), over);
    }

    method SetCount(v: Operand, n: int, ghost over: map<string, Operand>)
      requires Valid()
      modifies this`variablesRefCount
      ensures Valid() && State(over) == SetRef(old(State(over)), v, n)
    {
      variablesRefCount := variablesRefCount[v := n];
    }

    method CreateVariantComparison(op: ComparisonOp, left: Operand, right: Operand, ghost over: map<string, Operand>)
      returns (r: Result<Operand, LoweringError>)
      requires Valid()
      modifies this, irBuilder
      ensures Valid()
      ensures match VariantComparison(old(State(over)), op, left, right)
              case Err(e) => r == Err(e)
              case Ok(c) => r == Ok(c.v) && State(over) == c.b
    {
      hide Lowering.WrapBoth, CheckedCall, Lowering.BothGoOutOfScope;
      var l, rr := WrapBoth(left, right, over);
      var ok := irBuilder.next;
      CreateCheckedCall(ok, CallCompare(ok, ok + 1, op, l, rr), over);
      var error := BothGoOutOfScope(l, rr, over);
      return if error.Some? then Err(error.value) else Ok(Reg(ok + 1, I1));
    }

    method CreateVariantBinaryOperation(op: BinaryOp, left: Operand, right: Operand, ghost over: map<string, Operand>)
      returns (r: Result<Operand, LoweringError>)
      requires Valid()
      modifies this, irBuilder
      ensures Valid()
      ensures match VariantBinary(old(State(over)), op, left, right)
              case Err(e) => r == Err(e)
              case Ok(c) => r == Ok(c.v) && State(over) == c.b
    {
      hide Lowering.WrapBoth, CheckedCall, Lowering.BothGoOutOfScope, SetRef;
      var l, rr := WrapBoth(left, right, over);
      var ok := irBuilder.next;
      CreateCheckedCall(ok, CallBinary(ok, ok + 1, op, l, rr), over);
      SetCount(Variant(ok + 1), 1, over);
      var error := BothGoOutOfScope(l, rr, over);
      return if error.Some? then Err(error.value) else Ok(Variant(ok + 1));
    }

    method CreateVariantUnaryOperation(op: UnaryOp, val: Operand, ghost over: map<string, Operand>)
      returns (r: Result<Operand, LoweringError>)
      requires Valid()
      modifies this, irBuilder
      ensures Valid()
      ensures match VariantUnary(old(State(over)), op, val)
              case Err(e) => r == Err(e)
              case Ok(c) => r == Ok(c.v) && State(over) == c.b
    {
      hide CheckedCall, GoesOutOfScope, SetRef;
      var ok := irBuilder.next;
      CreateCheckedCall(ok, CallUnary(ok, ok + 1, op, val), over);
      SetCount(Variant(ok + 1), 1, over);
      var error := VariableGoesOutOfScope(val, over);
      return if error.Some? then Err(error.value) else Ok(Variant(ok + 1));
    }

    /** The arguments in order, wrapped where they are not variants. */
    method WrapArguments(arguments: seq<Operand>, ghost over: map<string, Operand>) returns (wrapped: seq<Operand>)
      requires Valid()
      modifies this, irBuilder
      ensures Valid() && Arguments(wrapped, State(over)) == WrapAll(old(State(over)), arguments)
    {
      wrapped := [];
      ghost var b0 := State(over);
      var i := 0;
      while i < |arguments|
        invariant Valid() && i <= |arguments|
        invariant var rest := WrapAll(State(over), arguments[i..]);
                  WrapAll(b0, arguments) == Arguments(wrapped + rest.vs, rest.b)
      {
        assert arguments[i..][0] == arguments[i] && arguments[i..][1..] == arguments[i + 1..];
        ghost var rest := WrapAll(State(over), arguments[i..]);
        ghost var w := Lowering.WrapAsVariant(State(over), arguments[i]);
        ghost var rest' := WrapAll(w.b, arguments[i + 1..]);
        assert rest == Arguments([w.v] + rest'.vs, rest'.b);
        assert wrapped + ([w.v] + rest'.vs) == (wrapped + [w.v]) + rest'.vs;
        var argument := WrapAsVariant(arguments[i], over);
        wrapped := wrapped + [argument];
        i := i + 1;
      }
      assert arguments[i..] == [];
      assert wrapped + [] == wrapped;
    }

    /** A call whose result has to be destroyed; one more register is for the test of it. */
    method CreateCountedCall(dst: nat, call: Instr, ghost over: map<string, Operand>)
      requires Valid() && dst == irBuilder.next
      modifies this, irBuilder
      ensures Valid() && State(over) == SetRef(Emit(Fresh(old(State(over)), 2), call), Variant(dst), 1)
    {
      var first := irBuilder.Reserve(2);
      irBuilder.Insert(call);
      variablesRefCount := variablesRefCount[Variant(first) := 1];
    }

    method CreateMethodCall(name: string, arguments: seq<Operand>, ghost over: map<string, Operand>)
      returns (r: Operand)
      requires Valid()
      modifies this, irBuilder
      ensures Valid() && MethodCall(old(State(over)), name, arguments) == Ok(Computed(r, State(over)))
    {
      hide WrapAll, ReturnIfFails;
      var wrapped := WrapArguments(arguments, over);
      var dst := irBuilder.next;
      CreateCountedCall(dst, CallMethod(dst, name, wrapped), over);
      hide Emit, SetRef;
      irBuilder.Insert(NotNull(dst + 1, dst));
      r := Variant(dst);
      CreateRetVoidIfCallFails(Reg(dst + 1, I1), over);
    }

    // ---------- Loops ----------

    /** The initial termination test; the metadata is kept under the iterable's own value. */
    method CreateForLoopInit(iterable: Operand, ghost over: map<string, Operand>) returns (cond: Operand)
      requires Valid()
      modifies this, irBuilder
      ensures Valid()
      ensures var b := old(State(over));
              var init := Emit(Fresh(b, 3), CallLoopInit(b.next, b.next + 1, iterable));
              && cond == Reg(b.next + 2, I1)
              && State(over)
                 == Emit(init.(meta := init.meta[iterable := Meta(b.next, b.next + 1)]), NotNull(b.next + 2, b.next))
    {
      var table := irBuilder.Reserve(3);
      irBuilder.Insert(CallLoopInit(table, table + 1, iterable));
      forLoopMetadata := forLoopMetadata[iterable := Meta(table, table + 1)];
      irBuilder.Insert(NotNull(table + 2, table));
      cond := Reg(table + 2, I1);
    }

    method CreateForLoopCleanup(iterable: Operand, ghost over: map<string, Operand>)
      requires Valid()
      modifies this
      ensures Valid() && State(over) == old(State(over)).(meta := old(forLoopMetadata) - {iterable})
    {
      forLoopMetadata := forLoopMetadata - {iterable};
    }

    method CreateForLoopNextIteration(iterable: Operand, ghost over: map<string, Operand>)
      returns (r: Result<Operand, LoweringError>)
      requires Valid()
      modifies irBuilder
      ensures Valid()
      ensures iterable !in forLoopMetadata ==> r == Err(LostLoopMetadata)
      ensures iterable in forLoopMetadata ==>
                var b, meta := old(State(over)), forLoopMetadata[iterable];
                && r == Ok(Reg(b.next, I1))
                   && State(over) == Emit(Fresh(b, 1), CallLoopNext(b.next, meta.table, meta.pos))
    {
      if iterable !in forLoopMetadata {
        return Err(LostLoopMetadata);
      }
      var metadata := forLoopMetadata[iterable];
      var dst := irBuilder.Reserve(1);
      irBuilder.Insert(CallLoopNext(dst, metadata.table, metadata.pos));
      return Ok(Reg(dst, I1));
    }

    method CreateForLoopGetVariables(iterable: Operand, hasKey: bool, hasValue: bool, ghost over: map<string, Operand>)
      returns (key: Option<Operand>, value: Option<Operand>)
      requires Valid() && iterable in forLoopMetadata
      modifies this, irBuilder
      ensures Valid()
      ensures var b := old(State(over));
              var vars := VarsOf(b, hasKey, hasValue);
              && State(over) == LoopGet(b, old(forLoopMetadata)[iterable], vars)
              && key == (if hasKey then Some(Variant(vars.key.value)) else None)
              && value == (if hasValue then Some(Variant(vars.val.value)) else None)
    {
      var metadata := forLoopMetadata[iterable];
      var keyId, valueId := None, None;
      if hasKey {
        var id := irBuilder.Reserve(1);
        keyId := Some(id);
      }
      if hasValue {
        var id := irBuilder.Reserve(1);
        valueId := Some(id);
      }
      irBuilder.Insert(CallLoopGet(metadata.table, metadata.pos, keyId, valueId));
      key, value := None, None;
      if hasKey {
        key := Some(Variant(keyId.value));
        variablesRefCount := variablesRefCount[key.value := 1];
      }
      if hasValue {
        value := Some(Variant(valueId.value));
        variablesRefCount := variablesRefCount[value.value := -1];
      }
    }
  }

  /** The result of a method against that of its specification. */
  predicate Matches(spec: Lowered, r: Result<Operand, LoweringError>, after: Builder) {
    match spec
    case Err(e) => r == Err(e)
    case Ok(c) => r == Ok(c.v) && after == c.b
  }

  predicate StmtMatches(spec: Stmt, error: Option<LoweringError>, after: Builder) {
    match spec
    case Err(e) => error == Some(e)
    case Ok(b) => error == None && after == b
  }

  /** The operands of the loop variables. */
  predicate HoldsVariables(vars: LoopVars, key: Option<Operand>, value: Option<Operand>) {
    && key == (if vars.key.Some? then Some(Variant(vars.key.value)) else None)
    && value == (if vars.val.Some? then Some(Variant(vars.val.value)) else None)
  }

  /** What a name, if there is one, stood for before. */
  predicate HoldsEarlier(outer: map<string, Operand>, name: Option<string>, earlier: Option<Operand>) {
    name.Some? ==> earlier == if name.value in outer then Some(outer[name.value]) else None
  }

  /** The lowering of a loop from the end of its body. */
  function LoopTail(b3: Builder, parts: LoopParts, vars: LoopVars, key: Option<string>, value: Option<string>,
                    outer: map<string, Operand>, els: Option<AST>): Stmt
    requires parts.loopElse < |b3.blocks| && parts.after < |b3.blocks|
  {
    var b4 :- DropVariables(b3, vars);
    var b5 :- LoopNext(b4.(over := Restore(Restore(b4.over, key, outer), value, outer)), parts);
    var b6 :- LowerOpt(b5, els);
    LoopEnd(b6, parts)
  }

  /** The same from the beginning of its body, with its variables bound or not. */
  function LoopBound(b2: Builder, parts: LoopParts, vars: LoopVars, key: Option<string>, value: Option<string>,
                     outer: map<string, Operand>, body: AST, els: Option<AST>): Stmt
    requires parts.loopElse < |b2.blocks| && parts.after < |b2.blocks|
  {
    var b3 :- LowerStmt(b2, body);
    LoopTail(b3, parts, vars, key, value, outer, els)
  }

  function LoopFrom(p: Builder, parts: LoopParts, key: Option<string>, value: Option<string>, body: AST,
                    els: Option<AST>): Stmt
    requires parts.loopElse < |p.blocks| && parts.after < |p.blocks|
  {
    var vars := VarsOf(p, key.Some?, value.Some?);
    var b2 := LoopGet(p, parts.meta, vars);
    LoopBound(b2.(over := LoopOver(b2.over, key, value, vars)), parts, vars, key, value, b2.over, body, els)
  }

  lemma LoopSteps(b: Builder, key: Option<string>, value: Option<string>, it: Expr, body: AST, els: Option<AST>)
    ensures var r := LowerStmt(b, For(key, value, it, body, els));
            var c := LowerExpr(b, it);
            && (c.Err? ==> r == Err(c.error))
            && (c.Ok? && !IsVariantOperand(c.value.v) ==> r == Err(InvalidOperands))
            && (c.Ok? && IsVariantOperand(c.value.v) ==>
                  var parts := PartsOf(c.value.b, c.value.v);
                  r == LoopFrom(LoopStart(c.value.b, parts), parts, key, value, body, els))
  {
    hide LowerExpr, LoopStart, LoopGet, LoopOver, LoopNext, LoopEnd, DropVariables, Restore, LowerOpt;
  }

  /** `m_overriden_variables` as the map it stands for: a null entry, which looking a name up
      creates, is no entry. */
  function NonNull(m: map<string, Option<Operand>>): map<string, Operand> {
    map x | x in m && m[x].Some? :: m[x].value
  }

  lemma NonNullAdded(m: map<string, Option<Operand>>, name: string, v: Operand)
    ensures NonNull(m[name := Some(v)]) == NonNull(m)[name := v]
  {
  }

  lemma NullAdded(m: map<string, Option<Operand>>, name: string)
    requires name !in m
    ensures NonNull(m[name := None]) == NonNull(m)
  {
  }

  lemma NonNullErased(m: map<string, Option<Operand>>, name: string)
    ensures NonNull(m - {name}) == NonNull(m) - {name}
  {
  }

  class LLVMVisitor {
    const irBuilder: IRBuilder
    const bindings: PHPBindings
    var overridenVariables: map<string, Option<Operand>>

    ghost predicate Valid()
      reads this, bindings, irBuilder
    {
      bindings.irBuilder == irBuilder && irBuilder.Valid()
    }

    ghost function State(): Builder
      requires Valid()
      reads this, bindings, irBuilder
    {
      bindings.State(NonNull(overridenVariables))
    }

    /** `functionSetup`: an empty function, nothing overridden, no counts. */
    constructor ()
      ensures Valid() && fresh(bindings) && fresh(irBuilder) && State() == ENTRY
    {
      var builder := new IRBuilder();
      irBuilder := builder;
      bindings := new PHPBindings(builder);
      overridenVariables := map[];
    }

    // ---------- Expressions ----------

    /** `operator[]` of the map: an absent name becomes a null entry. */
    method Overriding(name: string) returns (v: Option<Operand>)
      requires Valid()
      modifies this
      ensures Valid() && State() == old(State())
      ensures v == if name in State().over then Some(State().over[name]) else None
    {
      if name !in overridenVariables {
        NullAdded(overridenVariables, name);
        overridenVariables := overridenVariables[name := None];
      }
      return overridenVariables[name];
    }

    method VariableReferenceExpression(name: string) returns (r: Result<Operand, LoweringError>)
      requires Valid()
      modifies this, bindings, irBuilder
      ensures Valid() && Matches(LowerExpr(old(State()), Var(name)), r, State())
    {
      var overriding := Overriding(name);
      ghost var over := NonNull(overridenVariables);
      if overriding.Some? {
        var error := bindings.GetNewReferenceForVariable(overriding.value, over);
        return if error.Some? then Err(error.value) else Ok(overriding.value);
      }
      var v := bindings.CreateVariableLookup(name, over);
      return Ok(v);
    }

    /** One instruction with a new register for its result. */
    method Compute(ty: Type, i: Instr) returns (r: Operand)
      requires Valid()
      modifies irBuilder
      ensures Valid() && var b := old(State()); r == Reg(b.next, ty) && State() == Emit(Fresh(b, 1), i)
    {
      var id := irBuilder.Reserve(1);
      irBuilder.Insert(i);
      r := Reg(id, ty);
    }

    /** `CreateSIToFP`, unless the operand is a double already. */
    method ConvertToDouble(v: Operand) returns (r: Result<Operand, LoweringError>)
      requires Valid()
      modifies irBuilder
      ensures Valid() && Matches(Convert(old(State()), v), r, State())
    {
      if TypeOfOperand(v).DoubleTy? {
        return Ok(v);
      }
      if !IsIntegerOperand(v) {
        return Err(InvalidOperands);
      }
      var d := Compute(DoubleTy, SIToFP(irBuilder.next, v));
      return Ok(d);
    }

    /** The left operand first; the right one only if the left one converts. */
    method ConvertBoth(left: Operand, right: Operand)
      returns (l: Result<Operand, LoweringError>, r: Result<Operand, LoweringError>)
      requires Valid()
      modifies irBuilder
      ensures Valid()
      ensures match Convert(old(State()), left)
              case Err(e) => l == Err(e)
              case Ok(c) => l == Ok(c.v) && Matches(Convert(c.b, right), r, State())
    {
      hide Convert;
      l := ConvertToDouble(left);
      r := l;
      if l.Ok? {
        r := ConvertToDouble(right);
      }
    }

    method BinaryOperation(op: BinaryOp, left: Operand, right: Operand) returns (r: Result<Operand, LoweringError>)
      requires Valid()
      modifies bindings, irBuilder
      ensures Valid()
      ensures Matches(if IsVariantOperand(left) || IsVariantOperand(right)
                      then VariantBinary(old(State()), op, left, right)
                                 else NativeBinaryOp(old(State()), op, left, right), r, State())
    {
      hide VariantBinary, Convert, Emit;
      if IsVariantOperand(left) || IsVariantOperand(right) {
        r := bindings.CreateVariantBinaryOperation(op, left, right, NonNull(overridenVariables));
      } else if IsIntegerOperand(left) && IsIntegerOperand(right) {
        if TypeOfOperand(left) != TypeOfOperand(right) {
          return Err(InvalidOperands);
        }
        var v := Compute(TypeOfOperand(left), IntOp(irBuilder.next, op, left, right));
        return Ok(v);
      } else {
        hide IsIntegerOperand;
        var l, rr := ConvertBoth(left, right);
        if l.Err? {
          return l;
        }
        if rr.Err? {
          return rr;
        }
        var v := Compute(DoubleTy, FloatOp(irBuilder.next, op, l.value, rr.value));
        return Ok(v);
      }
    }

    method Comparison(op: ComparisonOp, left: Operand, right: Operand) returns (r: Result<Operand, LoweringError>)
      requires Valid()
      modifies bindings, irBuilder
      ensures Valid()
      ensures Matches(if IsVariantOperand(left) || IsVariantOperand(right)
                      then VariantComparison(old(State()), op, left, right)
                                 else NativeComparison(old(State()), op, left, right), r, State())
    {
      hide VariantComparison, Convert, Emit;
      if IsVariantOperand(left) || IsVariantOperand(right) {
        r := bindings.CreateVariantComparison(op, left, right, NonNull(overridenVariables));
      } else if IsIntegerOperand(left) && IsIntegerOperand(right) {
        if TypeOfOperand(left) != TypeOfOperand(right) {
          return Err(InvalidOperands);
        }
        var v := Compute(if IsLogical(op) then TypeOfOperand(left) else I1,
                         if IsLogical(op) then Logic(irBuilder.next, op, left, right)
                         else ICmp(irBuilder.next, op, left, right));
        return Ok(v);
      } else {
        hide IsIntegerOperand;
        var l, rr := ConvertBoth(left, right);
        if l.Err? {
          return l;
        }
        if rr.Err? {
          return rr;
        }
        if IsLogical(op) {
          return Err(InvalidOperands);
        }
        var v := Compute(I1, FCmp(irBuilder.next, op, l.value, rr.value));
        return Ok(v);
      }
    }

    method UnaryOperation(op: UnaryOp, v: Operand) returns (r: Result<Operand, LoweringError>)
      requires Valid()
      modifies bindings, irBuilder
      ensures Valid() && Matches(if IsVariantOperand(v) then VariantUnary(old(State()), op, v)
                                 else NativeUnaryOp(old(State()), op, v), r, State())
    {
      hide VariantUnary, Emit;
      if IsVariantOperand(v) {
        r := bindings.CreateVariantUnaryOperation(op, v, NonNull(overridenVariables));
      } else if op.NumericPositive? {
        return Ok(v);
      } else if !IsIntegerOperand(v) {
        return Err(InvalidOperands);
      } else {
        var x := Compute(TypeOfOperand(v), if op.NumericNegative? then Neg(irBuilder.next, v)
                                           else Not(irBuilder.next, v));
        return Ok(x);
      }
    }

    method Expression(e: Expr) returns (r: Result<Operand, LoweringError>)
      requires Valid()
      modifies this, bindings, irBuilder
      ensures Valid() && Matches(LowerExpr(old(State()), e), r, State())
      decreases e
    {
      hide VariantBinary, VariantComparison, VariantUnary, NativeBinaryOp, NativeComparison, NativeUnaryOp,
           AttributeLookup, MethodCall,
           VariableLookup, NewReference;
      match e
      case Var(name) => r := VariableReferenceExpression(name);
      case Attr(base, name) =>
        var v := Expression(base);
        if v.Err? {
          return v;
        }
        r := bindings.CreateGetAttribute(name, v.value, NonNull(overridenVariables));
      case Call(name, args) =>
        var vs := ArgumentExpressions(args);
        if vs.Err? {
          return Err(vs.error);
        }
        var v := bindings.CreateMethodCall(name, vs.value, NonNull(overridenVariables));
        return Ok(v);
      case DoubleLit(d) => return Ok(ConstDouble(d));
      case IntLit(i) => return Ok(ConstInt(i));
      case BoolLit(b) => return Ok(ConstBool(b));
      case StrLit(s) => return Ok(ConstString(s));
      case Bin(op, left, right) =>
        var l := Expression(left);
        if l.Err? {
          return l;
        }
        var rr := Expression(right);
        if rr.Err? {
          return rr;
        }
        r := BinaryOperation(op, l.value, rr.value);
      case Un(op, sub) =>
        var v := Expression(sub);
        if v.Err? {
          return v;
        }
        r := UnaryOperation(op, v.value);
      case Cmp(op, left, right) =>
        var l := Expression(left);
        if l.Err? {
          return l;
        }
        var rr := Expression(right);
        if rr.Err? {
          return rr;
        }
        r := Comparison(op, l.value, rr.value);
    }

    /** The loop over the arguments of a call. */
    method ArgumentExpressions(args: seq<Expr>) returns (r: Result<seq<Operand>, LoweringError>)
      requires Valid()
      modifies this, bindings, irBuilder
      ensures Valid()
      ensures match LowerExprs(old(State()), args)
              case Err(e) => r == Err(e)
              case Ok(c) => r == Ok(c.vs) && State() == c.b
      decreases args
    {
      var vs: seq<Operand> := [];
      ghost var spec := LowerExprs(State(), args);
      var i := 0;
      assert args[0..] == args;
      assert spec.Ok? ==> [] + spec.value.vs == spec.value.vs;
      while i < |args|
        invariant Valid() && i <= |args|
        invariant ArgumentsFrom(spec, vs, LowerExprs(State(), args[i..]))
      {
        hide LowerExpr;
        assert args[i..][0] == args[i] && args[i..][1..] == args[i + 1..];
        ghost var before := State();
        var v := Expression(args[i]);
        if v.Err? {
          return Err(v.error);
        }
        MoreArguments(spec, vs, before, args[i..], v.value, State());
        vs := vs + [v.value];
        i := i + 1;
      }
      assert args[i..] == [];
      assert vs + [] == vs;
      return Ok(vs);
    }

    // ---------- Statements ----------

    method RawBlock(text: string)
      requires Valid()
      modifies irBuilder
      ensures Valid() && State() == Emit(old(State()), CallPrint(ConstString(text)))
    {
      bindings.CreatePrintCall(ConstString(text), NonNull(overridenVariables));
    }

    method PrintBlock(e: Expr) returns (error: Option<LoweringError>)
      requires Valid()
      modifies this, bindings, irBuilder
      ensures Valid() && StmtMatches(LowerStmt(old(State()), Print(e)), error, State())
    {
      hide LowerExpr, GoesOutOfScope, Emit;
      var v := Expression(e);
      if v.Err? {
        return Some(v.error);
      }
      bindings.CreatePrintCall(v.value, NonNull(overridenVariables));
      if IsVariantOperand(v.value) {
        error := bindings.VariableGoesOutOfScope(v.value, NonNull(overridenVariables));
      } else {
        error := None;
      }
    }

    /** Creates the blocks of an `if` and moves into its `then` block. */
    method BeginThen(cond: Operand) returns (n: nat)
      requires Valid()
      modifies irBuilder
      ensures Valid() && n == |old(State()).blocks| && State() == IfStart(old(State()), cond)
    {
      n := irBuilder.CreateBlocks(3);
      irBuilder.PushBack(n);
      irBuilder.CreateTerminator(CondBr(cond, n, n + 1));
      irBuilder.SetInsertPoint(n);
    }

    /** Ends a branch, and starts block `n + 1` or `n + 2`. */
    method BeginElse(n: nat)
      requires Valid() && n + 2 < |State().blocks|
      modifies irBuilder
      ensures Valid() && State() == IfElse(old(State()), n)
    {
      irBuilder.CreateTerminator(Br(n + 2));
      irBuilder.PushBack(n + 1);
      irBuilder.SetInsertPoint(n + 1);
    }

    method BeginMerge(n: nat)
      requires Valid() && n + 2 < |State().blocks|
      modifies irBuilder
      ensures Valid() && State() == IfEnd(old(State()), n)
    {
      irBuilder.CreateTerminator(Br(n + 2));
      irBuilder.PushBack(n + 2);
      irBuilder.SetInsertPoint(n + 2);
    }

    method IfBlock(cond: Expr, thenBody: AST, elseBody: Option<AST>) returns (error: Option<LoweringError>)
      requires Valid()
      modifies this, bindings, irBuilder
      ensures Valid() && StmtMatches(LowerStmt(old(State()), If(cond, thenBody, elseBody)), error, State())
      decreases If(cond, thenBody, elseBody), 0
    {
      hide LowerExpr, IfStart, IfElse, IfEnd, NonNull;
      var condition := Expression(cond);
      if condition.Err? {
        return Some(condition.error);
      }
      if !TypeOfOperand(condition.value).I1? {
        return Some(UnimplementedCondition);
      }
      var n := BeginThen(condition.value);
      error := Statement(thenBody);
      if error.Some? {
        return;
      }
      BeginElse(n);
      if elseBody.Some? {
        error := Statement(elseBody.value);
        if error.Some? {
          return;
        }
      }
      BeginMerge(n);
    }

    /** `loop`, `loopElse` and `afterLoop`. */
    method BeginBlocks() returns (loop: nat)
      requires Valid()
      modifies irBuilder
      ensures Valid() && loop == |old(State()).blocks|
      ensures State() == Append(Append(Append(NewBlocks(old(State()), 3), loop), loop + 1), loop + 2)
    {
      loop := irBuilder.CreateBlocks(3);
      irBuilder.PushBack(loop);
      irBuilder.PushBack(loop + 1);
      irBuilder.PushBack(loop + 2);
    }

    /** The blocks of a loop, the test before it, and into the loop block. */
    method BeginLoop(iterable: Operand) returns (parts: LoopParts)
      requires Valid()
      modifies bindings, irBuilder
      ensures Valid() && parts == PartsOf(old(State()), iterable) && State() == LoopStart(old(State()), parts)
      ensures iterable in State().meta && State().meta[iterable] == parts.meta
    {
      parts := LoopParts(iterable, Meta(irBuilder.next, irBuilder.next + 1), |irBuilder.blocks|,
                         |irBuilder.blocks| + 1, |irBuilder.blocks| + 2);
      var loop := BeginBlocks();
      hide Emit, Terminate;
      var cond := bindings.CreateForLoopInit(iterable, NonNull(overridenVariables));
      irBuilder.CreateTerminator(CondBr(cond, loop, loop + 1));
      irBuilder.SetInsertPoint(loop);
    }

    method Override(name: string, v: Operand)
      requires Valid()
      modifies this
      ensures Valid() && State() == old(State()).(over := old(State()).over[name := v])
    {
      NonNullAdded(overridenVariables, name, v);
      overridenVariables := overridenVariables[name := Some(v)];
    }

    method RestoreOld(name: Option<string>, oldVariable: Option<Operand>, ghost outer: map<string, Operand>)
      requires Valid()
      requires HoldsEarlier(outer, name, oldVariable)
      modifies this
      ensures Valid() && State() == old(State()).(over := Restore(old(State()).over, name, outer))
    {
      if name.Some? {
        if oldVariable.Some? {
          Override(name.value, oldVariable.value);
        } else {
          NonNullErased(overridenVariables, name.value);
          overridenVariables := overridenVariables - {name.value};
        }
      }
    }

    /** The loop variables of an iteration, overriding what has their names; and what they
        override. */
    method BindVariables(parts: LoopParts, key: Option<string>, value: Option<string>)
      returns (keyVariable: Option<Operand>, valueVariable: Option<Operand>, oldKey: Option<Operand>,
               oldValue: Option<Operand>)
      requires Valid() && parts.iterable in State().meta && State().meta[parts.iterable] == parts.meta
      modifies this, bindings, irBuilder
      ensures Valid()
      ensures var b := old(State());
              var vars := VarsOf(b, key.Some?, value.Some?);
              var b2 := LoopGet(b, parts.meta, vars);
              && b2.over == b.over && State() == b2.(over := LoopOver(b2.over, key, value, vars))
              && HoldsVariables(vars, keyVariable, valueVariable)
              && HoldsEarlier(b.over, key, oldKey) && HoldsEarlier(b.over, value, oldValue)
    {
      ghost var b := State();
      oldKey := Overriding(if key.Some? then key.value else "");
      oldValue := Overriding(if value.Some? then value.value else "");
      keyVariable, valueVariable := bindings.CreateForLoopGetVariables(parts.iterable, key.Some?, value.Some?,
                                                                       NonNull(overridenVariables));
      assert State() == LoopGet(b, parts.meta, VarsOf(b, key.Some?, value.Some?));
      assert State().over == b.over;
      hide LoopGet;
      if key.Some? && keyVariable.Some? {
        Override(key.value, keyVariable.value);
      }
      if value.Some? && valueVariable.Some? {
        Override(value.value, valueVariable.value);
      }
    }

    method DestroyVariables(keyVariable: Option<Operand>, valueVariable: Option<Operand>, ghost vars: LoopVars)
      returns (error: Option<LoweringError>)
      requires Valid()
      requires HoldsVariables(vars, keyVariable, valueVariable)
      modifies bindings, irBuilder
      ensures Valid() && StmtMatches(DropVariables(old(State()), vars), error, State())
    {
      hide GoesOutOfScope;
      error := None;
      if keyVariable.Some? {
        error := bindings.VariableGoesOutOfScope(keyVariable.value, NonNull(overridenVariables));
        if error.Some? {
          return;
        }
      }
      if valueVariable.Some? {
        error := bindings.VariableGoesOutOfScope(valueVariable.value, NonNull(overridenVariables));
      }
    }

    /** The test for another iteration; then into the else block. */
    method EndIteration(parts: LoopParts) returns (error: Option<LoweringError>)
      requires Valid() && parts.loopElse < |State().blocks|
      modifies irBuilder
      ensures Valid() && StmtMatches(LoopNext(old(State()), parts), error, State())
    {
      var cond := bindings.CreateForLoopNextIteration(parts.iterable, NonNull(overridenVariables));
      if cond.Err? {
        return Some(cond.error);
      }
      irBuilder.CreateTerminator(CondBr(cond.value, parts.loop, parts.after));
      irBuilder.SetInsertPoint(parts.loopElse);
      return None;
    }

    method FinishLoop(parts: LoopParts) returns (error: Option<LoweringError>)
      requires Valid() && parts.after < |State().blocks|
      modifies bindings, irBuilder
      ensures Valid() && StmtMatches(LoopEnd(old(State()), parts), error, State())
    {
      irBuilder.CreateTerminator(Br(parts.after));
      irBuilder.SetInsertPoint(parts.after);
      bindings.CreateForLoopCleanup(parts.iterable, NonNull(overridenVariables));
      assert State()
          == (var b := MoveTo(Terminate(old(State()), Br(parts.after)), parts.after);
              b.(meta := b.meta - {parts.iterable}));
      hide GoesOutOfScope, Terminate, MoveTo;
      error := bindings.VariableGoesOutOfScope(parts.iterable, NonNull(overridenVariables));
    }

    /** After the body: its variables are destroyed, what they overrode is restored, and the
        next iteration is tested for. */
    method EndBody(parts: LoopParts, key: Option<string>, value: Option<string>, keyVariable: Option<Operand>,
                   valueVariable: Option<Operand>, oldKey: Option<Operand>, oldValue: Option<Operand>,
                   ghost vars: LoopVars, ghost outer: map<string, Operand>)
      returns (error: Option<LoweringError>)
      requires Valid() && parts.loopElse < |State().blocks|
      requires HoldsVariables(vars, keyVariable, valueVariable)
      requires HoldsEarlier(outer, key, oldKey) && HoldsEarlier(outer, value, oldValue)
      modifies this, bindings, irBuilder
      ensures Valid()
      ensures match DropVariables(old(State()), vars)
              case Err(e) => error == Some(e)
              case Ok(d) =>
                var b4 := d.(over := Restore(Restore(d.over, key, outer), value, outer));
                parts.loopElse < |b4.blocks| && StmtMatches(LoopNext(b4, parts), error, State())
    {
      hide DropVariables, LoopNext, Restore;
      error := DestroyVariables(keyVariable, valueVariable, vars);
      if error.Some? {
        return;
      }
      RestoreOld(key, oldKey, outer);
      RestoreOld(value, oldValue, outer);
      error := EndIteration(parts);
    }

    method ForBlock(key: Option<string>, value: Option<string>, iterable: Expr, body: AST, elseBody: Option<AST>)
      returns (error: Option<LoweringError>)
      requires Valid()
      modifies this, bindings, irBuilder
      ensures Valid() && StmtMatches(LowerStmt(old(State()), For(key, value, iterable, body, elseBody)), error, State())
      decreases For(key, value, iterable, body, elseBody), 2
    {
      LoopSteps(State(), key, value, iterable, body, elseBody);
      hide LowerExpr, LowerStmt, LoopStart, LoopFrom, NonNull;
      var it := Expression(iterable);
      if it.Err? {
        return Some(it.error);
      }
      if !IsVariantOperand(it.value) {
        return Some(InvalidOperands);
      }
      var parts := BeginLoop(it.value);
      error := LoopBody(parts, key, value, iterable, body, elseBody);
    }

    /** The body of a loop, and what follows it. */
    method LoopBody(parts: LoopParts, key: Option<string>, value: Option<string>, ghost iterable: Expr, body: AST,
                    elseBody: Option<AST>)
      returns (error: Option<LoweringError>)
      requires Valid() && parts.iterable in State().meta && State().meta[parts.iterable] == parts.meta
      requires parts.loopElse < |State().blocks| && parts.after < |State().blocks|
      modifies this, bindings, irBuilder
      ensures Valid()
      ensures StmtMatches(LoopFrom(old(State()), parts, key, value, body, elseBody), error, State())
      decreases For(key, value, iterable, body, elseBody), 1
    {
      hide LowerStmt, LoopGet, LoopOver, LoopTail, LoopBound, VarsOf, HoldsVariables, HoldsEarlier;
      ghost var vars := VarsOf(State(), key.Some?, value.Some?);
      ghost var outer := State().over;
      var keyVariable, valueVariable, oldKey, oldValue := BindVariables(parts, key, value);
      error := BoundBody(parts, key, value, keyVariable, valueVariable, oldKey, oldValue, iterable, body, elseBody,
                         vars, outer);
    }

    /** The body of a loop whose variables are bound. */
    method BoundBody(parts: LoopParts, key: Option<string>, value: Option<string>, keyVariable: Option<Operand>,
                     valueVariable: Option<Operand>, oldKey: Option<Operand>, oldValue: Option<Operand>,
                     ghost iterable: Expr, body: AST, elseBody: Option<AST>, ghost vars: LoopVars,
                     ghost outer: map<string, Operand>)
      returns (error: Option<LoweringError>)
      requires Valid() && parts.loopElse < |State().blocks| && parts.after < |State().blocks|
      requires HoldsVariables(vars, keyVariable, valueVariable)
      requires HoldsEarlier(outer, key, oldKey) && HoldsEarlier(outer, value, oldValue)
      modifies this, bindings, irBuilder
      ensures Valid()
      ensures StmtMatches(LoopBound(old(State()), parts, vars, key, value, outer, body, elseBody), error, State())
      decreases For(key, value, iterable, body, elseBody), 0
    {
      hide LowerStmt, LoopTail, HoldsVariables, HoldsEarlier, NonNull;
      error := Statement(body);
      if error.Some? {
        return;
      }
      error := AfterBody(parts, key, value, keyVariable, valueVariable, oldKey, oldValue, elseBody, vars, outer);
    }

    /** What follows the body of a loop. */
    method AfterBody(parts: LoopParts, key: Option<string>, value: Option<string>, keyVariable: Option<Operand>,
                     valueVariable: Option<Operand>, oldKey: Option<Operand>, oldValue: Option<Operand>,
                     elseBody: Option<AST>, ghost vars: LoopVars, ghost outer: map<string, Operand>)
      returns (error: Option<LoweringError>)
      requires Valid() && parts.loopElse < |State().blocks| && parts.after < |State().blocks|
      requires HoldsVariables(vars, keyVariable, valueVariable)
      requires HoldsEarlier(outer, key, oldKey) && HoldsEarlier(outer, value, oldValue)
      modifies this, bindings, irBuilder
      ensures Valid()
      ensures StmtMatches(LoopTail(old(State()), parts, vars, key, value, outer, elseBody), error, State())
      decreases elseBody, 4
    {
      hide LowerStmt, LowerOpt, LoopNext, LoopEnd, DropVariables, Restore, HoldsVariables, HoldsEarlier, NonNull;
      error := EndBody(parts, key, value, keyVariable, valueVariable, oldKey, oldValue, vars, outer);
      if error.Some? {
        return;
      }
      error := LoopElse(parts, elseBody);
    }

    /** The else body of a loop, and out of it. */
    method LoopElse(parts: LoopParts, elseBody: Option<AST>) returns (error: Option<LoweringError>)
      requires Valid() && parts.after < |State().blocks|
      modifies this, bindings, irBuilder
      ensures Valid()
      ensures match LowerOpt(old(State()), elseBody)
              case Err(e) => error == Some(e)
              case Ok(b6) => parts.after < |b6.blocks| && StmtMatches(LoopEnd(b6, parts), error, State())
      decreases elseBody, 3
    {
      hide LowerStmt, LoopEnd;
      if elseBody.Some? {
        error := Statement(elseBody.value);
        if error.Some? {
          return;
        }
      }
      error := FinishLoop(parts);
    }

    method Statement(t: AST) returns (error: Option<LoweringError>)
      requires Valid()
      modifies this, bindings, irBuilder
      ensures Valid() && StmtMatches(LowerStmt(old(State()), t), error, State())
      decreases t, 3
    {
      match t
      case Statements(list) => error := StatementList(list);
      case Raw(text) =>
        RawBlock(text);
        error := None;
      case Print(e) => error := PrintBlock(e);
      case If(cond, thenBody, elseBody) => error := IfBlock(cond, thenBody, elseBody);
      case For(key, value, iterable, body, elseBody) => error := ForBlock(key, value, iterable, body, elseBody);
      case Include(_, _, _) => return Some(UnsupportedInclude);
    }

    method StatementList(list: seq<AST>) returns (error: Option<LoweringError>)
      requires Valid()
      modifies this, bindings, irBuilder
      ensures Valid() && StmtMatches(LowerStmts(old(State()), list), error, State())
      decreases list, 0
    {
      ghost var spec := LowerStmts(State(), list);
      var i := 0;
      assert list[0..] == list;
      while i < |list|
        invariant Valid() && i <= |list|
        invariant LowerStmts(State(), list[i..]) == spec
      {
        hide LowerStmt;
        assert list[i..][0] == list[i] && list[i..][1..] == list[i + 1..];
        error := Statement(list[i]);
        if error.Some? {
          return;
        }
        i := i + 1;
      }
      assert list[i..] == [];
      return None;
    }

    /** `LLVMVisitor::visit`, on a visitor just constructed. */
    method Visit(t: AST) returns (error: Option<LoweringError>)
      requires Valid() && State() == ENTRY
      modifies this, bindings, irBuilder
      ensures Valid() && StmtMatches(LowerTemplate(t), error, State())
    {
      hide LowerStmt;
      error := Statement(t);
      if error.None? {
        irBuilder.CreateTerminator(RetVoid);
      }
    }
  }

  /** Lowering the rest of the arguments completes lowering all of them. */
  predicate ArgumentsFrom(spec: Result<Arguments, LoweringError>, vs: seq<Operand>,
                          rest: Result<Arguments, LoweringError>) {
    match rest
    case Err(e) => spec == Err(e)
    case Ok(c) => spec == Ok(Arguments(vs + c.vs, c.b))
  }

  lemma MoreArguments(spec: Result<Arguments, LoweringError>, vs: seq<Operand>, b: Builder, es: seq<Expr>, v: Operand,
                      b': Builder)
    requires es != [] && LowerExpr(b, es[0]) == Ok(Computed(v, b')) && ArgumentsFrom(spec, vs, LowerExprs(b, es))
    ensures ArgumentsFrom(spec, vs + [v], LowerExprs(b', es[1..]))
  {
    hide LowerExpr;
    var rest := LowerExprs(b', es[1..]);
    if rest.Ok? {
      assert vs + ([v] + rest.value.vs) == (vs + [v]) + rest.value.vs;
    }
  }
}
