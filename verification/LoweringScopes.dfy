/** On every path through the graph that lowering builds, a value is defined before it is used. */
module LoweringScopes {
  import opened Results
  import opened Ast
  import opened Ir
  import opened Lowering
  import opened LoweringFrames
  import opened LoweringLoops
  import opened LoweringCorrect
  import opened LoweringStatements
  import opened LoweringTheorems

  // ---------- What is available ----------

  /** Given what is available at its entry, nothing in the block uses anything else, and it
      passes on what its successors count on. */
  predicate BlockScoped(b: Block, entry: set<nat>, av: seq<set<nat>>) {
    && (forall k :: 0 <= k < |b.instrs| ==> Uses(b.instrs[k]) <= entry + DefsOf(b.instrs[..k]))
    && (b.term.Some? ==>
          && TermUses(b.term.value) <= entry + DefsOf(b.instrs)
          && forall x :: x in Targets(b.term.value) ==> x < |av| && av[x] <= entry + DefsOf(b.instrs))
  }

  /** av has for each block the registers that are defined on every path to its entry. */
  predicate Scoped(blocks: seq<Block>, av: seq<set<nat>>) {
    |av| == |blocks| && forall i :: 0 <= i < |blocks| ==> BlockScoped(blocks[i], av[i], av)
  }

  /** What is defined at the insertion point. */
  function Here(b: Builder, av: seq<set<nat>>): set<nat> {
    if b.cur < |av| then av[b.cur] + DefsOf(b.blocks[b.cur].instrs) else {}
  }

  /** Lowering goes on from b to b' with more blocks, and nothing that was defined is lost. */
  predicate Continues(b: Builder, av: seq<set<nat>>, b': Builder, av': seq<set<nat>>) {
    Scoped(b'.blocks, av') && av <= av' && Here(b, av) <= Here(b', av')
  }

  lemma ContinuesTrans(a: Builder, av: seq<set<nat>>, b: Builder, av1: seq<set<nat>>, c: Builder, av2: seq<set<nat>>)
    requires Continues(a, av, b, av1) && Continues(b, av1, c, av2)
    ensures Continues(a, av, c, av2)
  {
    hide Scoped, Here;
  }

  lemma ContinuesParts(b: Builder, av: seq<set<nat>>, b': Builder, av': seq<set<nat>>)
    requires Continues(b, av, b', av')
    ensures Scoped(b'.blocks, av') && |av'| == |b'.blocks| && av <= av' && Here(b, av) <= Here(b', av')
  {
  }

  lemma IsContinued(b: Builder, av: seq<set<nat>>, b': Builder, av': seq<set<nat>>)
    requires Scoped(b'.blocks, av') && av <= av' && Here(b, av) <= Here(b', av')
    ensures Continues(b, av, b', av')
  {
  }

  /** Instructions and blocks are as they were. */
  lemma SameCode(b: Builder, av: seq<set<nat>>, b': Builder)
    requires Scoped(b.blocks, av) && b'.blocks == b.blocks && b'.cur == b.cur
    ensures Continues(b, av, b', av)
  {
    hide BlockScoped;
  }

  /** One more instruction in a block. */
  lemma LongerBlock(b: Block, i: Instr, entry: set<nat>, av: seq<set<nat>>)
    requires BlockScoped(b, entry, av) && Uses(i) <= entry + DefsOf(b.instrs)
    ensures DefsOf(b.instrs + [i]) == DefsOf(b.instrs) + Defs(i)
    ensures BlockScoped(b.(instrs := b.instrs + [i]), entry, av)
  {
    var longer := b.instrs + [i];
    assert longer[..|b.instrs|] == b.instrs;
    hide Uses, Defs, TermUses, Targets;
    assert DefsOf(longer) == DefsOf(b.instrs) + Defs(i);
    hide DefsOf;
    forall k | 0 <= k < |longer|
      ensures Uses(longer[k]) <= entry + DefsOf(longer[..k])
    {
      if k < |b.instrs| {
        assert longer[..k] == b.instrs[..k];
      }
    }
  }

  lemma EmitScoped(b: Builder, av: seq<set<nat>>, n: nat, i: Instr)
    requires Scoped(b.blocks, av) && Uses(i) <= Here(b, av)
    ensures Continues(b, av, Emit(Fresh(b, n), i), av)
    ensures Here(Emit(Fresh(b, n), i), av) == Here(b, av) + Defs(i)
  {
    hide BlockScoped, Uses, Defs, DefsOf;
    LongerBlock(b.blocks[b.cur], i, av[b.cur], av);
  }

  lemma TerminateScoped(b: Builder, av: seq<set<nat>>, t: Terminator)
    requires Scoped(b.blocks, av) && TermUses(t) <= Here(b, av)
    requires forall x :: x in Targets(t) ==> x < |av| && av[x] <= Here(b, av)
    ensures Continues(b, av, Terminate(b, t), av)
  {
    assert BlockScoped(b.blocks[b.cur], av[b.cur], av);
    assert BlockScoped(Terminate(b, t).blocks[b.cur], av[b.cur], av);
    hide BlockScoped;
  }

  lemma MoveScoped(b: Builder, av: seq<set<nat>>, block: nat)
    requires Scoped(b.blocks, av) && block < |b.blocks|
    ensures Scoped(MoveTo(b, block).blocks, av) && av[block] <= Here(MoveTo(b, block), av)
  {
  }

  /** New blocks are empty and nothing branches to them yet: they may count on anything. */
  lemma NewBlocksScoped(b: Builder, av: seq<set<nat>>, n: nat, entry: set<nat>)
    requires Scoped(b.blocks, av)
    ensures Continues(b, av, NewBlocks(b, n), av + seq(n, _ => entry))
  {
    var av' := av + seq(n, _ => entry);
    forall i | 0 <= i < |b.blocks|
      ensures BlockScoped(b.blocks[i], av[i], av')
    {
      assert BlockScoped(b.blocks[i], av[i], av);
    }
    assert BlockScoped(EMPTY_BLOCK, entry, av');
    hide BlockScoped;
  }

  /** Two blocks that are entered with what is available here. */
  lemma TwoBlocksScoped(b: Builder, av: seq<set<nat>>, h: set<nat>)
    requires Scoped(b.blocks, av) && h == Here(b, av)
    ensures var n := |b.blocks|;
            var b1 := Append(Append(NewBlocks(b, 2), n), n + 1);
            && Scoped(b1.blocks, av + [h, h]) && Here(b1, av + [h, h]) == h && |av| == n && |b1.blocks| == n + 2
  {
    var n := |b.blocks|;
    assert av + seq(2, _ => h) == av + [h, h];
    NewBlocksScoped(b, av, 2, h);
    hide Scoped;
    SameCode(NewBlocks(b, 2), av + [h, h], Append(Append(NewBlocks(b, 2), n), n + 1));
  }

  lemma BranchUses(cond: Operand, yes: nat, no: nat)
    ensures TermUses(CondBr(cond, yes, no)) == IdsOf(cond) && Targets(CondBr(cond, yes, no)) == {yes, no}
    ensures cond.Reg? ==> IdsOf(cond) == {cond.id}
    ensures TermUses(RetVoid) == {} && Targets(RetVoid) == {}
  {
  }

  lemma CheckIs(b: Builder, cond: Operand)
    ensures var n := |b.blocks|;
            var b2 := Terminate(Append(Append(NewBlocks(b, 2), n), n + 1), CondBr(cond, n, n + 1));
            && |b2.blocks| == n + 2
            && var b4 := Terminate(MoveTo(b2, n + 1), RetVoid);
               |b4.blocks| == n + 2 && ReturnIfFails(b, cond) == MoveTo(b4, n)
  {
  }

  lemma CheckScoped(b: Builder, av: seq<set<nat>>, cond: Operand) returns (av': seq<set<nat>>)
    requires Scoped(b.blocks, av) && IdsOf(cond) <= Here(b, av)
    ensures Continues(b, av, ReturnIfFails(b, cond), av')
  {
    hide *;
    var n, h := |b.blocks|, Here(b, av);
    av' := av + [h, h];
    var b1 := Append(Append(NewBlocks(b, 2), n), n + 1);
    var b2 := Terminate(b1, CondBr(cond, n, n + 1));
    TwoBlocksScoped(b, av, h);
    assert av'[n] == av'[n + 1] == h;
    BranchUses(cond, n, n + 1);
    CheckIs(b, cond);
    TerminateScoped(b1, av', CondBr(cond, n, n + 1));
    ContinuesParts(b1, av', b2, av');
    MoveScoped(b2, av', n + 1);
    var b3 := MoveTo(b2, n + 1);
    var b4 := Terminate(b3, RetVoid);
    TerminateScoped(b3, av', RetVoid);
    ContinuesParts(b3, av', b4, av');
    MoveScoped(b4, av', n);
    IsContinued(b, av, ReturnIfFails(b, cond), av');
  }

  lemma ReleaseScoped(b: Builder, av: seq<set<nat>>, v: Operand)
    requires Scoped(b.blocks, av) && GoesOutOfScope(b, v).Ok? && IdsOf(v) <= Here(b, av)
    ensures Continues(b, av, GoesOutOfScope(b, v).value, av)
  {
    hide Scoped;
    SameCode(b, av, b);
    var b' := SetRef(b, v, b.refs[v] - 1);
    SameCode(b, av, b');
    assert Here(b', av) == Here(b, av);
    EmitScoped(b', av, 0, CallDestruct(v));
    assert Fresh(b', 0) == b';
    ContinuesTrans(b, av, b', av, Emit(b', CallDestruct(v)), av);
  }

  lemma BothReleaseScoped(b: Builder, av: seq<set<nat>>, l: Operand, r: Operand)
    requires Scoped(b.blocks, av) && BothGoOutOfScope(b, l, r).Ok? && IdsOf(l) + IdsOf(r) <= Here(b, av)
    ensures Continues(b, av, BothGoOutOfScope(b, l, r).value, av)
  {
    hide Scoped, GoesOutOfScope, Here;
    var b1 := GoesOutOfScope(b, l).value;
    ReleaseScoped(b, av, l);
    ReleaseScoped(b1, av, r);
    ContinuesTrans(b, av, b1, av, BothGoOutOfScope(b, l, r).value, av);
  }

  // ---------- Operations ----------

  lemma WrapScoped(b: Builder, av: seq<set<nat>>, v: Operand)
    requires Scoped(b.blocks, av) && IdsOf(v) <= Here(b, av)
    ensures Continues(b, av, WrapAsVariant(b, v).b, av)
    ensures IdsOf(WrapAsVariant(b, v).v) <= Here(WrapAsVariant(b, v).b, av)
  {
    hide Scoped;
    if IsVariantOperand(v) {
      SameCode(b, av, b);
    } else {
      var b1 := Emit(Fresh(b, 1), CallWrap(b.next, v));
      EmitScoped(b, av, 1, CallWrap(b.next, v));
      SameCode(b1, av, SetRef(b1, Variant(b.next), -1));
      ContinuesTrans(b, av, b1, av, SetRef(b1, Variant(b.next), -1), av);
    }
  }

  lemma WrapBothScoped(b: Builder, av: seq<set<nat>>, l: Operand, r: Operand)
    requires Scoped(b.blocks, av) && IdsOf(l) + IdsOf(r) <= Here(b, av)
    ensures var w := WrapBoth(b, l, r); Continues(b, av, w.b, av) && IdsOf(w.l) + IdsOf(w.r) <= Here(w.b, av)
  {
    hide Scoped, WrapAsVariant, Here;
    var wl := WrapAsVariant(b, l);
    WrapScoped(b, av, l);
    WrapScoped(wl.b, av, r);
    ContinuesTrans(b, av, wl.b, av, WrapBoth(b, l, r).b, av);
  }

  lemma CheckedScoped(b: Builder, av: seq<set<nat>>, ok: nat, call: Instr) returns (av': seq<set<nat>>)
    requires Scoped(b.blocks, av) && Uses(call) <= Here(b, av) && ok in Defs(call)
    ensures Continues(b, av, CheckedCall(b, ok, call), av') && Defs(call) <= Here(CheckedCall(b, ok, call), av')
  {
    hide Scoped, Here, Emit, ReturnIfFails, Uses, Defs;
    var b1 := Emit(Fresh(b, 2), call);
    EmitScoped(b, av, 2, call);
    av' := CheckScoped(b1, av, Reg(ok, I1));
    ContinuesTrans(b, av, b1, av, CheckedCall(b, ok, call), av');
  }

  /** The operand of the result is available after it. */
  predicate Yields(b: Builder, av: seq<set<nat>>, c: Computed, av': seq<set<nat>>) {
    Continues(b, av, c.b, av') && IdsOf(c.v) <= Here(c.b, av')
  }

  lemma YieldsLater(b: Builder, av: seq<set<nat>>, b1: Builder, av1: seq<set<nat>>, c: Computed, av2: seq<set<nat>>)
    requires Continues(b, av, b1, av1) && Yields(b1, av1, c, av2)
    ensures Yields(b, av, c, av2)
  {
    hide Scoped, Here;
  }

  lemma BinaryScoped(b: Builder, av: seq<set<nat>>, op: BinaryOp, l: Operand, r: Operand) returns (av': seq<set<nat>>)
    requires Scoped(b.blocks, av) && IdsOf(l) + IdsOf(r) <= Here(b, av) && BinResult(b, op, l, r).Ok?
    ensures Yields(b, av, BinResult(b, op, l, r).value, av')
  {
    hide Scoped, Here, Continues, Yields, IdsOf;
    if IsVariantOperand(l) || IsVariantOperand(r) {
      av' := VariantBinaryScoped(b, av, op, l, r);
    } else {
      NativeBinaryScoped(b, av, op, l, r);
      av' := av;
    }
  }

  lemma VariantBinaryScoped(b: Builder, av: seq<set<nat>>, op: BinaryOp, l: Operand, r: Operand)
    returns (av': seq<set<nat>>)
    requires Scoped(b.blocks, av) && IdsOf(l) + IdsOf(r) <= Here(b, av) && VariantBinary(b, op, l, r).Ok?
    ensures Yields(b, av, VariantBinary(b, op, l, r).value, av')
  {
    hide Scoped, WrapBoth, CheckedCall, BothGoOutOfScope, Here;
    var w := WrapBoth(b, l, r);
    var dst := w.b.next + 1;
    var call := CallBinary(w.b.next, dst, op, w.l, w.r);
    var b1 := CheckedCall(w.b, w.b.next, call);
    var b2 := SetRef(b1, Variant(dst), 1);
    WrapBothScoped(b, av, l, r);
    av' := CheckedScoped(w.b, av, w.b.next, call);
    SameCode(b1, av', b2);
    BothReleaseScoped(b2, av', w.l, w.r);
    ContinuesTrans(b, av, w.b, av, b1, av');
    ContinuesTrans(b, av, b1, av', b2, av');
  }

  lemma NativeBinaryScoped(b: Builder, av: seq<set<nat>>, op: BinaryOp, l: Operand, r: Operand)
    requires Scoped(b.blocks, av) && IdsOf(l) + IdsOf(r) <= Here(b, av) && NativeBinaryOp(b, op, l, r).Ok?
    ensures Yields(b, av, NativeBinaryOp(b, op, l, r).value, av)
  {
    hide Scoped, Convert, Emit, Here;
    if IsIntegerOperand(l) && IsIntegerOperand(r) {
      EmitScoped(b, av, 1, IntOp(b.next, op, l, r));
    } else {
      var cl := Convert(b, l).value;
      var cr := Convert(cl.b, r).value;
      ConvertBothScoped(b, av, l, r);
      EmitScoped(cr.b, av, 1, FloatOp(cr.b.next, op, cl.v, cr.v));
    }
  }

  lemma ComparisonScoped(b: Builder, av: seq<set<nat>>, op: ComparisonOp, l: Operand, r: Operand)
    returns (av': seq<set<nat>>)
    requires Scoped(b.blocks, av) && IdsOf(l) + IdsOf(r) <= Here(b, av) && CmpResult(b, op, l, r).Ok?
    ensures Yields(b, av, CmpResult(b, op, l, r).value, av')
  {
    hide Scoped, Here, Continues, Yields, IdsOf;
    if IsVariantOperand(l) || IsVariantOperand(r) {
      av' := VariantComparisonScoped(b, av, op, l, r);
    } else {
      NativeComparisonScoped(b, av, op, l, r);
      av' := av;
    }
  }

  lemma VariantComparisonScoped(b: Builder, av: seq<set<nat>>, op: ComparisonOp, l: Operand, r: Operand)
    returns (av': seq<set<nat>>)
    requires Scoped(b.blocks, av) && IdsOf(l) + IdsOf(r) <= Here(b, av) && VariantComparison(b, op, l, r).Ok?
    ensures Yields(b, av, VariantComparison(b, op, l, r).value, av')
  {
    hide Scoped, WrapBoth, CheckedCall, BothGoOutOfScope, Here;
    var w := WrapBoth(b, l, r);
    var call := CallCompare(w.b.next, w.b.next + 1, op, w.l, w.r);
    var b1 := CheckedCall(w.b, w.b.next, call);
    WrapBothScoped(b, av, l, r);
    av' := CheckedScoped(w.b, av, w.b.next, call);
    BothReleaseScoped(b1, av', w.l, w.r);
    ContinuesTrans(b, av, w.b, av, b1, av');
  }

  lemma NativeComparisonScoped(b: Builder, av: seq<set<nat>>, op: ComparisonOp, l: Operand, r: Operand)
    requires Scoped(b.blocks, av) && IdsOf(l) + IdsOf(r) <= Here(b, av) && NativeComparison(b, op, l, r).Ok?
    ensures Yields(b, av, NativeComparison(b, op, l, r).value, av)
  {
    hide Scoped, Convert, Emit, Here;
    if IsIntegerOperand(l) && IsIntegerOperand(r) {
      EmitScoped(b, av, 1, if IsLogical(op) then Logic(b.next, op, l, r) else ICmp(b.next, op, l, r));
    } else {
      var cl := Convert(b, l).value;
      var cr := Convert(cl.b, r).value;
      ConvertBothScoped(b, av, l, r);
      EmitScoped(cr.b, av, 1, FCmp(cr.b.next, op, cl.v, cr.v));
    }
  }

  lemma ConvertScoped(b: Builder, av: seq<set<nat>>, v: Operand)
    requires Scoped(b.blocks, av) && IdsOf(v) <= Here(b, av) && Convert(b, v).Ok?
    ensures Yields(b, av, Convert(b, v).value, av)
  {
    hide Scoped, Emit, Here;
    if TypeOfOperand(v).DoubleTy? {
      SameCode(b, av, b);
    } else {
      EmitScoped(b, av, 1, SIToFP(b.next, v));
    }
  }

  lemma ConvertBothScoped(b: Builder, av: seq<set<nat>>, l: Operand, r: Operand)
    requires Scoped(b.blocks, av) && IdsOf(l) + IdsOf(r) <= Here(b, av)
    requires Convert(b, l).Ok? && Convert(Convert(b, l).value.b, r).Ok?
    ensures var cl := Convert(b, l).value;
            var cr := Convert(cl.b, r).value;
            Yields(b, av, cr, av) && IdsOf(cl.v) <= Here(cr.b, av)
  {
    hide Scoped, Convert, Here;
    var cl := Convert(b, l).value;
    ConvertScoped(b, av, l);
    ConvertScoped(cl.b, av, r);
    YieldsLater(b, av, cl.b, av, Convert(cl.b, r).value, av);
  }

  lemma UnaryScoped(b: Builder, av: seq<set<nat>>, op: UnaryOp, v: Operand) returns (av': seq<set<nat>>)
    requires Scoped(b.blocks, av) && IdsOf(v) <= Here(b, av) && UnResult(b, op, v).Ok?
    ensures Yields(b, av, UnResult(b, op, v).value, av')
  {
    hide Scoped, CheckedCall, GoesOutOfScope, Emit, Here;
    av' := av;
    if IsVariantOperand(v) {
      var call := CallUnary(b.next, b.next + 1, op, v);
      var b1 := CheckedCall(b, b.next, call);
      var b2 := SetRef(b1, Variant(b.next + 1), 1);
      av' := CheckedScoped(b, av, b.next, call);
      SameCode(b1, av', b2);
      ReleaseScoped(b2, av', v);
    } else if op.NumericPositive? {
      SameCode(b, av, b);
    } else {
      EmitScoped(b, av, 1, if op.NumericNegative? then Neg(b.next, v) else Not(b.next, v));
    }
  }

  lemma {:induction false} WrapAllScoped(b: Builder, av: seq<set<nat>>, vs: seq<Operand>)
    requires Scoped(b.blocks, av) && IdsOfAll(vs) <= Here(b, av)
    ensures var ws := WrapAll(b, vs); Continues(b, av, ws.b, av) && IdsOfAll(ws.vs) <= Here(ws.b, av)
    decreases vs
  {
    hide Scoped, WrapAsVariant, Here;
    if vs == [] {
      SameCode(b, av, b);
    } else {
      var w := WrapAsVariant(b, vs[0]);
      var ws := WrapAll(w.b, vs[1..]);
      WrapScoped(b, av, vs[0]);
      WrapAllScoped(w.b, av, vs[1..]);
      ContinuesTrans(b, av, w.b, av, ws.b, av);
      assert ([w.v] + ws.vs)[1..] == ws.vs;
    }
  }

  lemma MethodCallScoped(b: Builder, av: seq<set<nat>>, name: string, vs: seq<Operand>) returns (av': seq<set<nat>>)
    requires Scoped(b.blocks, av) && IdsOfAll(vs) <= Here(b, av)
    ensures MethodCall(b, name, vs).Ok? && Yields(b, av, MethodCall(b, name, vs).value, av')
  {
    hide Scoped, WrapAll, Emit, ReturnIfFails, Here, IdsOfAll;
    var ws := WrapAll(b, vs);
    var dst := ws.b.next;
    var b1 := Emit(Fresh(ws.b, 2), CallMethod(dst, name, ws.vs));
    var b2 := SetRef(b1, Variant(dst), 1);
    var b3 := Emit(b2, NotNull(dst + 1, dst));
    WrapAllScoped(b, av, vs);
    EmitScoped(ws.b, av, 2, CallMethod(dst, name, ws.vs));
    ContinuesTrans(b, av, ws.b, av, b1, av);
    SameCode(b1, av, b2);
    ContinuesTrans(b, av, b1, av, b2, av);
    EmitScoped(b2, av, 0, NotNull(dst + 1, dst));
    assert Fresh(b2, 0) == b2;
    ContinuesTrans(b, av, b2, av, b3, av);
    av' := CheckScoped(b3, av, Reg(dst + 1, I1));
    ContinuesTrans(b, av, b3, av, ReturnIfFails(b3, Reg(dst + 1, I1)), av');
  }

  lemma AttributeScoped(b: Builder, av: seq<set<nat>>, n: string, base: Operand)
    requires Scoped(b.blocks, av) && IdsOf(base) <= Here(b, av) && AttributeLookup(b, n, base).Ok?
    ensures Yields(b, av, AttributeLookup(b, n, base).value, av)
  {
    hide Scoped, Emit, GoesOutOfScope, Here;
    var b1 := Emit(Fresh(b, 1), CallAttribute(b.next, base, n));
    var b2 := SetRef(b1, Variant(b.next), -1);
    EmitScoped(b, av, 1, CallAttribute(b.next, base, n));
    SameCode(b1, av, b2);
    ContinuesTrans(b, av, b1, av, b2, av);
    ReleaseScoped(b2, av, base);
  }

  // ---------- Expressions ----------

  /** The overridden variables and the registers of the active loops are available. */
  predicate Covers(b: Builder, h: set<nat>) {
    && (forall x :: x in b.over ==> IdsOf(b.over[x]) <= h)
    && (forall o :: o in b.meta ==> b.meta[o].table in h && b.meta[o].pos in h)
  }

  lemma CoversLater(b: Builder, h: set<nat>, b': Builder, h': set<nat>)
    requires Covers(b, h) && h <= h' && b'.over == b.over && MetaLe(b'.meta, b.meta)
    ensures Covers(b', h')
  {
  }

  lemma VariableScoped(b: Builder, av: seq<set<nat>>, x: string)
    requires Scoped(b.blocks, av) && Covers(b, Here(b, av)) && LowerExpr(b, Var(x)).Ok?
    ensures Yields(b, av, LowerExpr(b, Var(x)).value, av)
  {
    hide Scoped, Emit, Here;
    var c := LowerExpr(b, Var(x)).value;
    if x in b.over {
      SameCode(b, av, c.b);
    } else {
      var b1 := Emit(Fresh(b, 1), CallLookup(b.next, x));
      EmitScoped(b, av, 1, CallLookup(b.next, x));
      SameCode(b1, av, c.b);
      ContinuesTrans(b, av, b1, av, c.b, av);
    }
  }

  /** Lowering keeps the overridden variables and forgets loops at most. */
  lemma ExprKeeps(b: Builder, e: Expr, h: set<nat>, h': set<nat>)
    requires WellFormed(b) && LowerExpr(b, e).Ok? && Covers(b, h) && h <= h'
    ensures WellFormed(LowerExpr(b, e).value.b) && Covers(LowerExpr(b, e).value.b, h')
  {
    hide WellFormed, LowerExpr, Covers, Grown, Releasable, KeysMatch, OperandBelow;
    LowerExprGrown(b, e, {}, false);
    var c := LowerExpr(b, e).value;
    ExprGrownParts(b, c, e, {}, false);
    CoversLater(b, h, c.b, h');
  }

  lemma {:induction false} ExprScoped(b: Builder, av: seq<set<nat>>, e: Expr) returns (av': seq<set<nat>>)
    requires WellFormed(b) && Scoped(b.blocks, av) && Covers(b, Here(b, av)) && LowerExpr(b, e).Ok?
    ensures Yields(b, av, LowerExpr(b, e).value, av')
    decreases e
  {
    hide WellFormed, Scoped, Here, Covers, VariantBinary, NativeBinaryOp, VariantComparison, NativeComparison,
         VariantUnary,
         NativeUnaryOp, MethodCall, AttributeLookup, VariableLookup, NewReference;
    match e
    case Var(x) =>
      VariableScoped(b, av, x);
      av' := av;
    case Attr(base, n) =>
      var c := LowerExpr(b, base).value;
      av' := ExprScoped(b, av, base);
      AttributeUnfolds(b, base, n);
      AttributeScoped(c.b, av', n, c.v);
      YieldsLater(b, av, c.b, av', AttributeLookup(c.b, n, c.v).value, av');
    case Call(f, args) =>
      var c := LowerExprs(b, args).value;
      var av1 := ExprsScoped(b, av, args);
      CallUnfolds(b, f, args);
      av' := MethodCallScoped(c.b, av1, f, c.vs);
      YieldsLater(b, av, c.b, av1, MethodCall(c.b, f, c.vs).value, av');
    case Bin(op, l, r) =>
      BinUnfolds(b, op, l, r);
      var cl, cr, av1 := PairScoped(b, av, e);
      av' := BinaryScoped(cr.b, av1, op, cl.v, cr.v);
      YieldsLater(b, av, cr.b, av1, BinResult(cr.b, op, cl.v, cr.v).value, av');
    case Un(op, s) =>
      var c := LowerExpr(b, s).value;
      var av1 := ExprScoped(b, av, s);
      UnUnfolds(b, op, s);
      av' := UnaryScoped(c.b, av1, op, c.v);
      YieldsLater(b, av, c.b, av1, UnResult(c.b, op, c.v).value, av');
    case Cmp(op, l, r) =>
      CmpUnfolds(b, op, l, r);
      var cl, cr, av1 := PairScoped(b, av, e);
      av' := ComparisonScoped(cr.b, av1, op, cl.v, cr.v);
      YieldsLater(b, av, cr.b, av1, CmpResult(cr.b, op, cl.v, cr.v).value, av');
    case _ =>
      SameCode(b, av, b);
      av' := av;
  }

  lemma PairScoped(b: Builder, av: seq<set<nat>>, e: Expr)
    returns (cl: Computed, cr: Computed, av': seq<set<nat>>)
    requires WellFormed(b) && Scoped(b.blocks, av) && Covers(b, Here(b, av)) && (e.Bin? || e.Cmp?)
    requires LowerExpr(b, e.left).Ok? && LowerExpr(LowerExpr(b, e.left).value.b, e.right).Ok?
    ensures LowerExpr(b, e.left) == Ok(cl) && LowerExpr(cl.b, e.right) == Ok(cr)
    ensures Continues(b, av, cr.b, av') && IdsOf(cl.v) + IdsOf(cr.v) <= Here(cr.b, av')
    decreases e, 0
  {
    hide WellFormed, Scoped, Here, Covers, LowerExpr;
    var l, r := e.left, e.right;
    cl := LowerExpr(b, l).value;
    cr := LowerExpr(cl.b, r).value;
    var av1 := ExprScoped(b, av, l);
    ExprKeeps(b, l, Here(b, av), Here(cl.b, av1));
    av' := ExprScoped(cl.b, av1, r);
    ContinuesTrans(b, av, cl.b, av1, cr.b, av');
  }

  lemma {:induction false} ExprsScoped(b: Builder, av: seq<set<nat>>, es: seq<Expr>) returns (av': seq<set<nat>>)
    requires WellFormed(b) && Scoped(b.blocks, av) && Covers(b, Here(b, av)) && LowerExprs(b, es).Ok?
    ensures var c := LowerExprs(b, es).value; Continues(b, av, c.b, av') && IdsOfAll(c.vs) <= Here(c.b, av')
    decreases es
  {
    hide WellFormed, Scoped, Here, Covers, LowerExpr;
    if es == [] {
      SameCode(b, av, b);
      av' := av;
    } else {
      var c := LowerExpr(b, es[0]).value;
      var cs := LowerExprs(c.b, es[1..]).value;
      var av1 := ExprScoped(b, av, es[0]);
      ExprKeeps(b, es[0], Here(b, av), Here(c.b, av1));
      av' := ExprsScoped(c.b, av1, es[1..]);
      ContinuesTrans(b, av, c.b, av1, cs.b, av');
      assert ([c.v] + cs.vs)[1..] == cs.vs;
    }
  }

  // ---------- Statements ----------

  lemma PrintScoped(b: Builder, av: seq<set<nat>>, e: Expr) returns (av': seq<set<nat>>)
    requires WellFormed(b) && Scoped(b.blocks, av) && Covers(b, Here(b, av)) && LowerStmt(b, Print(e)).Ok?
    ensures Continues(b, av, LowerStmt(b, Print(e)).value, av')
  {
    hide WellFormed, Scoped, Here, Covers, Emit, LowerExpr, GoesOutOfScope;
    var c := LowerExpr(b, e).value;
    var b1 := Emit(c.b, CallPrint(c.v));
    av' := ExprScoped(b, av, e);
    EmitScoped(c.b, av', 0, CallPrint(c.v));
    assert Fresh(c.b, 0) == c.b;
    ContinuesTrans(b, av, c.b, av', b1, av');
    if IsVariantOperand(c.v) {
      ReleaseScoped(b1, av', c.v);
      ContinuesTrans(b, av, b1, av', GoesOutOfScope(b1, c.v).value, av');
    }
  }

  /** All three blocks of a conditional are entered with what is available before it. */
  lemma IfStartScoped(c: Builder, av: seq<set<nat>>, cond: Operand, h: set<nat>)
    requires Scoped(c.blocks, av) && IdsOf(cond) <= h && h == Here(c, av)
    ensures Continues(c, av, IfStart(c, cond), av + [h, h, h]) && h <= Here(IfStart(c, cond), av + [h, h, h])
  {
    hide *;
    var n := |c.blocks|;
    var av' := av + [h, h, h];
    var b := Append(NewBlocks(c, 3), n);
    var t := Terminate(b, CondBr(cond, n, n + 1));
    ThreeBlocksScoped(c, av, h);
    assert av'[n] == av'[n + 1] == h;
    BranchUses(cond, n, n + 1);
    IfStartIs(c, cond);
    TerminateScoped(b, av', CondBr(cond, n, n + 1));
    ContinuesParts(b, av', t, av');
    MoveScoped(t, av', n);
    IsContinued(c, av, IfStart(c, cond), av');
  }

  lemma IfStartIs(c: Builder, cond: Operand)
    ensures var n := |c.blocks|;
            var t := Terminate(Append(NewBlocks(c, 3), n), CondBr(cond, n, n + 1));
            |t.blocks| == n + 3 && IfStart(c, cond) == MoveTo(t, n)
  {
  }

  lemma ThreeBlocksScoped(c: Builder, av: seq<set<nat>>, h: set<nat>)
    requires Scoped(c.blocks, av)
    ensures var n := |c.blocks|;
            var b := Append(NewBlocks(c, 3), n);
            && Scoped(b.blocks, av + [h, h, h]) && Here(b, av + [h, h, h]) == Here(c, av)
            && |av| == n && |b.blocks| == n + 3
  {
    assert av + seq(3, _ => h) == av + [h, h, h];
    NewBlocksScoped(c, av, 3, h);
    hide Scoped;
    SameCode(NewBlocks(c, 3), av + [h, h, h], Append(NewBlocks(c, 3), |c.blocks|));
  }

  /** From the end of one branch to the block that follows both, and on in another block. */
  lemma JoinScoped(b: Builder, av: seq<set<nat>>, target: nat, next: nat, layout: seq<nat>, h: set<nat>)
    requires Scoped(b.blocks, av) && target < |av| && next < |av| && av[target] == av[next] == h && h <= Here(b, av)
    requires |av| == |b.blocks|
    ensures var b' := MoveTo(Terminate(b, Br(target)), next).(layout := layout);
            Scoped(b'.blocks, av) && h <= Here(b', av)
  {
    hide Scoped, Here;
    TerminateScoped(b, av, Br(target));
    var b1 := MoveTo(Terminate(b, Br(target)), next);
    MoveScoped(Terminate(b, Br(target)), av, next);
    SameCode(b1, av, b1.(layout := layout));
  }

  lemma ScopedLength(b: Builder, av: seq<set<nat>>)
    requires Scoped(b.blocks, av)
    ensures |av| == |b.blocks|
  {
  }

  lemma IfElseIs(b: Builder, n: nat)
    requires n + 2 < |b.blocks|
    ensures IfElse(b, n) == MoveTo(Terminate(b, Br(n + 2)), n + 1).(layout := b.layout + [n + 1])
    ensures IfEnd(b, n) == MoveTo(Terminate(b, Br(n + 2)), n + 2).(layout := b.layout + [n + 2])
    ensures var e := IfElse(b, n); e.refs == b.refs && e.over == b.over && e.meta == b.meta && e.next == b.next
  {
  }

  lemma AnyBalance(b: Builder, t: AST, o: Option<AST>)
    ensures BalancedStmt(b, t, {}, false) && BalancedOpt(b, o, {}, false)
  {
  }

  lemma StmtKeeps(b: Builder, t: AST)
    requires WellFormed(b) && LowerStmt(b, t).Ok?
    ensures var b' := LowerStmt(b, t).value;
            WellFormed(b') && b'.over == b.over && MetaLe(b'.meta, b.meta)
  {
    hide *;
    AnyBalance(b, t, None);
    LowerStmtGrown(b, t, {}, false);
    StmtGrownParts(b, LowerStmt(b, t).value, false);
  }

  lemma StmtCovers(b: Builder, t: AST, h: set<nat>, h': set<nat>)
    requires WellFormed(b) && LowerStmt(b, t).Ok? && Covers(b, h) && h <= h'
    ensures WellFormed(LowerStmt(b, t).value) && Covers(LowerStmt(b, t).value, h')
  {
    hide WellFormed, LowerStmt, Covers;
    StmtKeeps(b, t);
    CoversLater(b, h, LowerStmt(b, t).value, h');
  }

  lemma YieldsParts(b: Builder, av: seq<set<nat>>, c: Computed, av': seq<set<nat>>)
    requires Yields(b, av, c, av')
    ensures Continues(b, av, c.b, av') && IdsOf(c.v) <= Here(c.b, av')
    ensures Scoped(c.b.blocks, av') && |av'| == |c.b.blocks| && av <= av' && Here(b, av) <= Here(c.b, av')
  {
  }

  /** The three blocks after av keep what they are entered with. */
  lemma StillThere(av: seq<set<nat>>, h: set<nat>, av1: seq<set<nat>>, av2: seq<set<nat>>)
    requires av1 == av + [h, h, h] && av1 <= av2
    ensures var n := |av|; |av2| >= n + 3 && av2[n] == av2[n + 1] == av2[n + 2] == h && av <= av2
  {
    var n := |av|;
    assert av2[n] == av1[n] && av2[n + 1] == av1[n + 1] && av2[n + 2] == av1[n + 2];
  }

  lemma IfBuilders(c: Builder, cond: Operand, a: AST, s: Builder, b1: Builder, e: Builder)
    requires WellFormed(c) && s == IfStart(c, cond) && LowerStmt(s, a) == Ok(b1)
    requires |c.blocks| + 2 < |b1.blocks| && e == IfElse(b1, |c.blocks|)
    ensures WellFormed(s) && s.over == c.over && s.meta == c.meta
    ensures WellFormed(e) && e.over == c.over && MetaLe(e.meta, c.meta)
  {
    hide *;
    IfStartKeeps(c, cond);
    SameRefs(c, s, false, {});
    StmtKeeps(s, a);
    WellFormedOpen(c);
    AnyBalance(s, a, None);
    LowerStmtGrown(s, a, {}, false);
    StmtGrownParts(s, b1, false);
    IfElseOpen(c, cond, b1);
    IfElseIs(b1, |c.blocks|);
    SameRefs(b1, e, false, {});
    SameMeta(s.meta, c.meta, b1.meta, e.meta);
  }

  lemma SameMeta(s: map<Operand, Meta>, c: map<Operand, Meta>, b: map<Operand, Meta>, e: map<Operand, Meta>)
    requires s == c && e == b && MetaLe(b, s)
    ensures MetaLe(e, c) && MetaLe(c, c)
  {
  }

  lemma ConditionalScoped(b: Builder, av: seq<set<nat>>, cond: Expr, a: AST, els: Option<AST>)
    returns (av': seq<set<nat>>)
    requires WellFormed(b) && Scoped(b.blocks, av) && Covers(b, Here(b, av)) && LowerStmt(b, If(cond, a, els)).Ok?
    ensures Continues(b, av, LowerStmt(b, If(cond, a, els)).value, av')
    decreases If(cond, a, els), 0
  {
    hide *;
    var c, s, b1, e, b2 := IfUnfolds(b, cond, a, els);
    var n := |c.b.blocks|;
    var av1 := ExprScoped(b, av, cond);
    YieldsParts(b, av, c, av1);
    var h := Here(c.b, av1);
    ExprKeeps(b, cond, Here(b, av), h);
    IfStartScoped(c.b, av1, c.v, h);
    var av2 := av1 + [h, h, h];
    ContinuesParts(c.b, av1, s, av2);
    IfBuilders(c.b, c.v, a, s, b1, e);
    SameMeta(s.meta, c.b.meta, s.meta, s.meta);
    CoversLater(c.b, h, s, Here(s, av2));
    var av3 := StmtScoped(s, av2, a);
    ContinuesParts(s, av2, b1, av3);
    StillThere(av1, h, av2, av3);
    IfElseIs(b1, n);
    JoinScoped(b1, av3, n + 2, n + 1, b1.layout + [n + 1], h);
    CoversLater(c.b, h, e, Here(e, av3));
    var av4 := OptScoped(e, av3, els);
    ContinuesParts(e, av3, b2, av4);
    StillThere(av1, h, av2, av4);
    IfElseIs(b2, n);
    JoinScoped(b2, av4, n + 2, n + 2, b2.layout + [n + 2], h);
    PrefixTrans(av, av1, av4);
    av' := av4;
    IsContinued(b, av, IfEnd(b2, n), av');
  }

  lemma PrefixTrans(a: seq<set<nat>>, b: seq<set<nat>>, c: seq<set<nat>>)
    requires a <= b <= c
    ensures a <= c
  {
  }

  // ---------- Loops ----------

  /** The three blocks of a loop are entered with its registers as well. */
  lemma LoopStartScoped(c: Builder, av: seq<set<nat>>, parts: LoopParts, h: set<nat>)
    requires parts == PartsOf(c, parts.iterable) && Scoped(c.blocks, av) && IdsOf(parts.iterable) <= Here(c, av)
    requires h == Here(c, av) + {parts.meta.table, parts.meta.pos, c.next + 2}
    ensures var p := LoopStart(c, parts);
            Scoped(p.blocks, av + [h, h, h]) && h <= Here(p, av + [h, h, h])
  {
    hide *;
    var n := |c.blocks|;
    var av' := av + [h, h, h];
    var b4 := InitTested(c, parts);
    var b5 := Terminate(b4, CondBr(Reg(c.next + 2, I1), parts.loop, parts.loopElse));
    AppendedScoped(c, av, parts, h);
    TestedScoped(c, av', parts, Here(c, av));
    TestedIs(c, parts);
    ScopedLength(c, av);
    StillThere(av, h, av', av');
    BranchUses(Reg(c.next + 2, I1), parts.loop, parts.loopElse);
    TerminateScoped(b4, av', CondBr(Reg(c.next + 2, I1), parts.loop, parts.loopElse));
    ContinuesParts(b4, av', b5, av');
    MoveScoped(b5, av', parts.loop);
    SameCode(MoveTo(b5, parts.loop), av', LoopStart(c, parts));
    ContinuesParts(MoveTo(b5, parts.loop), av', LoopStart(c, parts), av');
  }

  lemma AppendedScoped(c: Builder, av: seq<set<nat>>, parts: LoopParts, h: set<nat>)
    requires Scoped(c.blocks, av)
    ensures Scoped(InitAppended(c, parts).blocks, av + [h, h, h])
    ensures Here(InitAppended(c, parts), av + [h, h, h]) == Here(c, av)
  {
    var av' := av + seq(3, _ => h);
    assert av' == av + [h, h, h];
    NewBlocksScoped(c, av, 3, h);
    hide Scoped;
    SameCode(NewBlocks(c, 3), av', InitAppended(c, parts));
  }

  lemma TestedScoped(c: Builder, av: seq<set<nat>>, parts: LoopParts, h: set<nat>)
    requires Scoped(InitAppended(c, parts).blocks, av) && Here(InitAppended(c, parts), av) == h
    requires IdsOf(parts.iterable) <= h
    ensures Scoped(InitTested(c, parts).blocks, av)
    ensures Here(InitTested(c, parts), av) == h + {parts.meta.table, parts.meta.pos, c.next + 2}
  {
    hide *;
    var a, meta := InitAppended(c, parts), parts.meta;
    var init, test := CallLoopInit(meta.table, meta.pos, parts.iterable), NotNull(c.next + 2, meta.table);
    TestInstructions(c, parts);
    EmitScoped(a, av, 3, init);
    var b3 := Emit(Fresh(a, 3), init);
    ContinuesParts(a, av, b3, av);
    EmitScoped(b3, av, 0, test);
    ContinuesParts(b3, av, Emit(Fresh(b3, 0), test), av);
  }

  lemma TestInstructions(c: Builder, parts: LoopParts)
    ensures var init := CallLoopInit(parts.meta.table, parts.meta.pos, parts.iterable);
            var test := NotNull(c.next + 2, parts.meta.table);
            && Uses(init) == IdsOf(parts.iterable) && Defs(init) == {parts.meta.table, parts.meta.pos}
            && Uses(test) == {parts.meta.table} && Defs(test) == {c.next + 2}
            && InitTested(c, parts) == Emit(Fresh(Emit(Fresh(InitAppended(c, parts), 3), init), 0), test)
  {
    hide InitAppended;
  }

  lemma TestedIs(c: Builder, parts: LoopParts)
    requires parts == PartsOf(c, parts.iterable)
    ensures var b4 := InitTested(c, parts);
            var b5 := Terminate(b4, CondBr(Reg(c.next + 2, I1), parts.loop, parts.loopElse));
            && parts.loop == |c.blocks| < |b5.blocks| && parts.loopElse == |c.blocks| + 1
            && LoopStart(c, parts).blocks == MoveTo(b5, parts.loop).blocks
            && LoopStart(c, parts).cur == MoveTo(b5, parts.loop).cur
  {
  }

  lemma LoopGetScoped(p: Builder, av: seq<set<nat>>, meta: Meta, vars: LoopVars, over: map<string, Operand>)
    requires Scoped(p.blocks, av) && meta.table in Here(p, av) && meta.pos in Here(p, av)
    ensures var body := LoopGet(p, meta, vars).(over := over);
            Continues(p, av, body, av) && IdOf(vars.key) + IdOf(vars.val) <= Here(body, av)
  {
    var i := CallLoopGet(meta.table, meta.pos, vars.key, vars.val);
    var body := LoopGet(p, meta, vars).(over := over);
    var e := Emit(Fresh(p, 0), i);
    assert body.blocks == e.blocks && body.cur == e.cur;
    hide Scoped, Here, Emit, LoopGet;
    EmitScoped(p, av, 0, i);
    SameCode(e, av, body);
    ContinuesTrans(p, av, e, av, body, av);
  }

  lemma DropScoped(b: Builder, av: seq<set<nat>>, vars: LoopVars, over: map<string, Operand>)
    requires Scoped(b.blocks, av) && IdOf(vars.key) + IdOf(vars.val) <= Here(b, av) && DropVariables(b, vars).Ok?
    ensures Continues(b, av, DropVariables(b, vars).value.(over := over), av)
  {
    hide Scoped, Here, GoesOutOfScope;
    var b1 := b;
    SameCode(b, av, b);
    if vars.key.Some? {
      ReleaseScoped(b, av, Variant(vars.key.value));
      b1 := GoesOutOfScope(b, Variant(vars.key.value)).value;
    }
    var d := DropVariables(b, vars).value;
    if vars.val.Some? {
      ReleaseScoped(b1, av, Variant(vars.val.value));
      ContinuesTrans(b, av, b1, av, d, av);
    }
    SameCode(d, av, d.(over := over));
    ContinuesTrans(b, av, d, av, d.(over := over), av);
  }

  lemma LoopNextScoped(b: Builder, av: seq<set<nat>>, parts: LoopParts, h: set<nat>)
    requires Scoped(b.blocks, av) && parts.loopElse < |b.blocks| && LoopNext(b, parts).Ok? && h <= Here(b, av)
    requires b.meta[parts.iterable].table in h && b.meta[parts.iterable].pos in h
    requires parts.loop < |av| && parts.after < |av| && parts.loopElse < |av|
    requires av[parts.loop] == av[parts.after] == av[parts.loopElse] == h
    ensures Scoped(LoopNext(b, parts).value.blocks, av) && h <= Here(LoopNext(b, parts).value, av)
  {
    hide Scoped, Here, Emit;
    var meta := b.meta[parts.iterable];
    var b1 := Emit(Fresh(b, 1), CallLoopNext(b.next, meta.table, meta.pos));
    EmitScoped(b, av, 1, CallLoopNext(b.next, meta.table, meta.pos));
    TerminateScoped(b1, av, CondBr(Reg(b.next, I1), parts.loop, parts.after));
    MoveScoped(Terminate(b1, CondBr(Reg(b.next, I1), parts.loop, parts.after)), av, parts.loopElse);
  }

  lemma LoopBlocks(l: Loop)
    ensures PartsIn(l).loop == |l.c.b.blocks|
    ensures PartsIn(l).loopElse == |l.c.b.blocks| + 1 && PartsIn(l).after == |l.c.b.blocks| + 2
  {
  }

  lemma VarsCovered(p: Builder, l: Loop, h: set<nat>, h': set<nat>)
    requires var b2 := LoopGet(p, PartsIn(l).meta, VarsIn(l));
             l.body == b2.(over := LoopOver(b2.over, l.k, l.v, VarsIn(l)))
    requires Covers(p, h) && h <= h' && IdOf(VarsIn(l).key) + IdOf(VarsIn(l).val) <= h'
    ensures Covers(l.body, h')
  {
    var vars := VarsIn(l);
    var b2 := LoopGet(p, PartsIn(l).meta, vars);
    assert b2.over == p.over && b2.meta == p.meta;
    hide LoopGet, PartsIn, VarsIn;
    CoversMore(p, l.k, l.v, vars, h, h');
  }

  lemma CoversMore(p: Builder, k: Option<string>, v: Option<string>, vars: LoopVars, h: set<nat>, h': set<nat>)
    requires Covers(p, h) && h <= h' && IdOf(vars.key) + IdOf(vars.val) <= h'
    ensures Covers(p.(over := LoopOver(p.over, k, v, vars)), h')
  {
  }

  /** With its own metadata a loop counts on its own registers. */
  lemma StartCovered(c: Builder, p: Builder, o: Operand, meta: Meta, h: set<nat>, h': set<nat>)
    requires Covers(c, h) && h <= h' && p.over == c.over && p.meta == c.meta[o := meta] && meta.table in h'
    requires meta.pos in h'
    ensures Covers(p, h')
  {
  }

  lemma ForScoped(b: Builder, av: seq<set<nat>>, k: Option<string>, v: Option<string>, it: Expr, a: AST,
                  els: Option<AST>)
    returns (av': seq<set<nat>>)
    requires WellFormed(b) && Scoped(b.blocks, av) && Covers(b, Here(b, av))
    requires LowerStmt(b, For(k, v, it, a, els)).Ok?
    ensures Continues(b, av, LowerStmt(b, For(k, v, it, a, els)).value, av')
    decreases For(k, v, it, a, els), 0
  {
    hide *;
    var c, p, body, b3, b4, b5, b6 := LoopUnfolds(b, k, v, it, a, els);
    var l := Loop(b, k, v, it, a, els, c, p, body, b3, b4, b5, b6);
    StagedIs(l);
    StagedParts(l);
    AnyBalance(b, For(k, v, it, a, els), els);
    LoopIsBuilt(l, {}, false);
    PartsAre(l);
    LoopBlocks(l);
    var parts, vars := PartsIn(l), VarsIn(l);
    var av1 := ExprScoped(b, av, it);
    YieldsParts(b, av, c, av1);
    ExprKeeps(b, it, Here(b, av), Here(c.b, av1));
    var h := Here(c.b, av1) + {parts.meta.table, parts.meta.pos, c.b.next + 2};
    LoopStartScoped(c.b, av1, parts, h);
    var av2 := av1 + [h, h, h];
    StartCovered(c.b, p, c.v, parts.meta, Here(c.b, av1), Here(p, av2));
    LoopGetScoped(p, av2, parts.meta, vars, body.over);
    ContinuesParts(p, av2, body, av2);
    VarsCovered(p, l, Here(p, av2), Here(body, av2));
    var av3 := StmtScoped(body, av2, a);
    ContinuesParts(body, av2, b3, av3);
    StillThere(av1, h, av2, av3);
    DropScoped(b3, av3, vars, b4.over);
    ContinuesParts(b3, av3, b4, av3);
    LoopNextScoped(b4, av3, parts, h);
    StartCovered(c.b, p, c.v, parts.meta, Here(c.b, av1), h);
    CoversLater(p, h, b5, Here(b5, av3));
    var av4 := OptScoped(b5, av3, els);
    ContinuesParts(b5, av3, b6, av4);
    StillThere(av1, h, av2, av4);
    var e := EndOf(l);
    EndScoped(l, av4, h);
    ReleaseScoped(e, av4, c.v);
    var r := LowerStmt(b, For(k, v, it, a, els)).value;
    ContinuesParts(e, av4, r, av4);
    PrefixTrans(av, av1, av4);
    av' := av4;
    IsContinued(b, av, r, av');
  }

  lemma EndScoped(l: Loop, av: seq<set<nat>>, h: set<nat>)
    requires PartsIn(l).after < |l.b6.blocks| && Scoped(l.b6.blocks, av) && h <= Here(l.b6, av)
    requires PartsIn(l).after < |av| && av[PartsIn(l).after] == h
    ensures Scoped(EndOf(l).blocks, av) && h <= Here(EndOf(l), av)
  {
    hide Scoped, Here;
    var after := PartsIn(l).after;
    ScopedLength(l.b6, av);
    JoinScoped(l.b6, av, after, after, l.b6.layout, h);
    SameCode(AfterOf(l), av, EndOf(l));
  }

  // ---------- Whole functions ----------

  /** Lowering a statement keeps values defined before they are used. */
  lemma {:induction false} StmtScoped(b: Builder, av: seq<set<nat>>, t: AST) returns (av': seq<set<nat>>)
    requires WellFormed(b) && Scoped(b.blocks, av) && Covers(b, Here(b, av)) && LowerStmt(b, t).Ok?
    ensures Continues(b, av, LowerStmt(b, t).value, av')
    decreases t, 1
  {
    match t
    case Statements(l) =>
      hide WellFormed, Scoped, Here, Covers;
      av' := StmtsScoped(b, av, l);
    case Raw(text) =>
      hide WellFormed, Scoped, Here, Covers, Emit;
      EmitScoped(b, av, 0, CallPrint(ConstString(text)));
      assert Fresh(b, 0) == b;
      av' := av;
    case Print(e) => av' := PrintScoped(b, av, e);
    case If(c, a, els) => av' := ConditionalScoped(b, av, c, a, els);
    case For(k, v, it, a, els) => av' := ForScoped(b, av, k, v, it, a, els);
  }

  lemma {:induction false} OptScoped(b: Builder, av: seq<set<nat>>, o: Option<AST>) returns (av': seq<set<nat>>)
    requires WellFormed(b) && Scoped(b.blocks, av) && Covers(b, Here(b, av)) && LowerOpt(b, o).Ok?
    ensures Continues(b, av, LowerOpt(b, o).value, av')
    decreases o, 0
  {
    hide WellFormed, Scoped, Here, Covers;
    match o
    case None =>
      SameCode(b, av, b);
      av' := av;
    case Some(t) => av' := StmtScoped(b, av, t);
  }

  lemma {:induction false} StmtsScoped(b: Builder, av: seq<set<nat>>, l: seq<AST>) returns (av': seq<set<nat>>)
    requires WellFormed(b) && Scoped(b.blocks, av) && Covers(b, Here(b, av)) && LowerStmts(b, l).Ok?
    ensures Continues(b, av, LowerStmts(b, l).value, av')
    decreases l, 0
  {
    hide WellFormed, Scoped, Here, Covers, LowerStmt;
    if l == [] {
      SameCode(b, av, b);
      av' := av;
    } else {
      var b1 := LowerStmt(b, l[0]).value;
      var av1 := StmtScoped(b, av, l[0]);
      StmtCovers(b, l[0], Here(b, av), Here(b1, av1));
      av' := StmtsScoped(b1, av1, l[1..]);
      ContinuesTrans(b, av, b1, av1, LowerStmts(b1, l[1..]).value, av');
    }
  }

  /** Every function that lowering builds has, for each block, registers that all paths to its
      entry define and that suffice for it; the entry block needs none. */
  lemma FunctionIsScoped(t: AST) returns (av: seq<set<nat>>)
    requires LowerTemplate(t).Ok?
    ensures Scoped(LowerTemplate(t).value.blocks, av) && |av| > 0 && av[0] == {}
  {
    var b := ENTRY;
    assert BlockScoped(EMPTY_BLOCK, {}, [{}]);
    assert Scoped(b.blocks, [{}]) && Covers(b, Here(b, [{}])) && WellFormed(b);
    TemplateUnfolds(t);
    hide Scoped, Here, Covers, WellFormed, LowerStmt, LowerTemplate;
    av := StmtScoped(b, [{}], t);
    TerminateScoped(LowerStmt(b, t).value, av, RetVoid);
    assert av[0] == [{}][0];
  }

  // ---------- Paths ----------

  /** A path through the graph from its entry. */
  predicate IsPath(blocks: seq<Block>, path: seq<nat>) {
    && |path| > 0 && path[0] == 0
    && (forall k :: 0 <= k < |path| ==> path[k] < |blocks|)
    && (forall k :: 0 <= k < |path| - 1 ==>
          blocks[path[k]].term.Some? && path[k + 1] in Targets(blocks[path[k]].term.value))
  }

  /** What the blocks on a path define. */
  function DefinedAlong(blocks: seq<Block>, path: seq<nat>): set<nat>
    requires forall k :: 0 <= k < |path| ==> path[k] < |blocks|
  {
    if path == [] then {}
    else DefinedAlong(blocks, path[..|path| - 1]) + DefsOf(blocks[path[|path| - 1]].instrs)
  }

  lemma {:induction false} AvailableOnPath(blocks: seq<Block>, av: seq<set<nat>>, path: seq<nat>)
    requires Scoped(blocks, av) && |av| > 0 && av[0] == {} && IsPath(blocks, path)
    ensures av[path[|path| - 1]] <= DefinedAlong(blocks, path[..|path| - 1])
    decreases |path|
  {
    if |path| > 1 {
      var before := path[..|path| - 1];
      var last := before[|before| - 1];
      assert last == path[|path| - 2] && before[..|before| - 1] == path[..|path| - 2];
      AvailableOnPath(blocks, av, before);
      assert BlockScoped(blocks[last], av[last], av);
      assert path[|path| - 2 + 1] in Targets(blocks[last].term.value);
    }
  }

  /** On every path from the entry, whether or not a run can take it, each instruction of the
      last block, and the condition of its branch, uses only what blocks earlier on the path
      and instructions earlier in the block define. */
  lemma DefinedBeforeUse(t: AST, path: seq<nat>)
    requires LowerTemplate(t).Ok? && IsPath(LowerTemplate(t).value.blocks, path)
    ensures var blocks := LowerTemplate(t).value.blocks;
            var last := blocks[path[|path| - 1]];
            var before := DefinedAlong(blocks, path[..|path| - 1]);
            && (forall k :: 0 <= k < |last.instrs| ==> Uses(last.instrs[k]) <= before + DefsOf(last.instrs[..k]))
            && (last.term.Some? ==> TermUses(last.term.value) <= before + DefsOf(last.instrs))
  {
    hide LowerTemplate, Uses, Defs;
    var av := FunctionIsScoped(t);
    var blocks := LowerTemplate(t).value.blocks;
    var i := path[|path| - 1];
    AvailableOnPath(blocks, av, path);
    assert BlockScoped(blocks[i], av[i], av);
  }
}
