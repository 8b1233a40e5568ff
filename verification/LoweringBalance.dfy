/** Reference counts balance exactly: lowering leaves no reference behind if and only if no
    argument of a method call is itself counted. */
module LoweringBalance {
  import opened Results
  import opened Ast
  import opened Semantics
  import opened Ir
  import opened Lowering
  import opened LoweringFrames
  import opened LoweringRuns
  import opened LoweringStorage
  import opened LoweringCorrect
  import opened LoweringStatements
  import opened LoweringTheorems

  // ---------- References left behind ----------

  /** Besides what is owed, o has a reference that nothing will release. */
  ghost predicate Leaks(a: Builder, b: Builder, owed: multiset<Operand>, o: Operand) {
    Owes(a, b, owed + multiset{o}, false) && o in b.refs && b.refs[o] != -1
  }

  lemma LeakIsInexact(a: Builder, b: Builder, owed: multiset<Operand>, o: Operand)
    requires Leaks(a, b, owed, o)
    ensures !Owes(a, b, owed, true)
  {
    assert (owed + multiset{o})[o] == owed[o] + 1;
  }

  /** A leak stays, whatever is lowered before and after. */
  lemma LeakAfter(a: Builder, b: Builder, c: Builder, m: multiset<Operand>, n: multiset<Operand>, o: Operand)
    requires Owes(a, b, m, false) && Leaks(b, c, n, o) && a.next <= b.next <= c.next
    ensures Leaks(a, c, m + n, o)
  {
    hide Owes;
    OwesTrans(a, b, c, m, n + multiset{o}, false);
    assert m + (n + multiset{o}) == m + n + multiset{o};
  }

  lemma LeakBefore(a: Builder, b: Builder, c: Builder, m: multiset<Operand>, n: multiset<Operand>, o: Operand)
    requires Leaks(a, b, m, o) && Owes(b, c, n, false) && a.next <= b.next <= c.next
    ensures Leaks(a, c, m + n, o)
  {
    OwesTrans(a, b, c, m + multiset{o}, n, false);
    assert m + multiset{o} + n == m + n + multiset{o};
  }

  lemma SameCountsLeak(a: Builder, b: Builder, b': Builder, m: multiset<Operand>, o: Operand)
    requires Leaks(a, b, m, o) && b'.refs == b.refs && b'.next >= b.next
    ensures Leaks(a, b', m, o)
  {
    SameRefsOwe(a, b, b', m + multiset{o}, false);
  }

  // ---------- Expressions ----------

  /** The same while an expression is lowered. */
  ghost predicate ExprLeaks(b: Builder, c: Computed, o: Operand) {
    Grown(b, c.b, OwedFor(c.v) + multiset{o}, false) && o in c.b.refs && c.b.refs[o] != -1
  }

  lemma SteadyLeak(b: Builder, c: Builder, o: Operand)
    requires Steady(b, c) && o in b.refs && b.refs[o] != -1
    ensures o in c.refs && c.refs[o] != -1
  {
  }

  lemma GrownIsSteady(b: Builder, c: Builder, m: multiset<Operand>, exact: bool)
    requires Grown(b, c, m, exact)
    ensures Steady(b, c)
  {
  }

  lemma {:induction false} LeakingExpr(b: Builder, e: Expr, keys: set<string>) returns (o: Operand)
    requires WellFormed(b) && LowerExpr(b, e).Ok? && KeysMatch(b, keys) && !Releasable(e, keys)
    ensures ExprLeaks(b, LowerExpr(b, e).value, o)
    decreases e, 2
  {
    match e
    case Attr(base, n) => o := LeakingAttribute(b, base, n, keys);
    case Call(m, args) => o := LeakingCall(b, m, args, keys);
    case Bin(op, l, r) => o := LeakingBinary(b, op, l, r, keys);
    case Un(op, s) => o := LeakingUnary(b, op, s, keys);
    case Cmp(op, l, r) => o := LeakingComparison(b, op, l, r, keys);
  }

  lemma LeakingAttribute(b: Builder, base: Expr, n: string, keys: set<string>) returns (o: Operand)
    requires WellFormed(b) && LowerExpr(b, Attr(base, n)).Ok? && KeysMatch(b, keys) && !Releasable(base, keys)
    ensures ExprLeaks(b, LowerExpr(b, Attr(base, n)).value, o)
    decreases Attr(base, n), 1
  {
    AttributeNeedsBase(b, base, n);
    hide *;
    var c := LowerExpr(b, base).value;
    o := LeakingExpr(b, base, keys);
    AttributeUnfolds(b, base, n);
    AttributeLeaks(b, c, n, o);
  }

  lemma AttributeNeedsBase(b: Builder, base: Expr, n: string)
    requires LowerExpr(b, Attr(base, n)).Ok?
    ensures LowerExpr(b, base).Ok?
  {
    hide AttributeLookup;
  }

  lemma AttributeLeaks(b: Builder, c: Computed, n: string, o: Operand)
    requires WellFormed(b) && ExprLeaks(b, c, o) && AttributeLookup(c.b, n, c.v).Ok?
    ensures ExprLeaks(b, AttributeLookup(c.b, n, c.v).value, o)
  {
    hide Grown, WellFormed, Steady, GoesOutOfScope, Emit;
    if !IsVariantOperand(c.v) {
      NonVariantUncounted(b, c.b, OwedFor(c.v) + multiset{o}, false, c.v);
      assert false;
    }
    assert OwedFor(c.v) + multiset{o} == multiset{o} + multiset{c.v};
    AttributeLookupGrown(b, c.b, multiset{o}, false, n, c.v);
    var r := AttributeLookup(c.b, n, c.v).value;
    SteadyLeak(c.b, r.b, o);
    assert multiset{o} + multiset{r.v} == OwedFor(r.v) + multiset{o};
  }

  lemma LeakingUnary(b: Builder, op: UnaryOp, s: Expr, keys: set<string>) returns (o: Operand)
    requires WellFormed(b) && LowerExpr(b, Un(op, s)).Ok? && KeysMatch(b, keys) && !Releasable(s, keys)
    ensures ExprLeaks(b, LowerExpr(b, Un(op, s)).value, o)
    decreases Un(op, s), 1
  {
    hide *;
    UnUnfolds(b, op, s);
    var c := LowerExpr(b, s).value;
    NotBalanced(b, s, keys);
    LowerExprGrown(b, s, keys, false);
    OperandOf(b, c, s, keys);
    o := LeakingExpr(b, s, keys);
    UnaryLeaks(b, c, op, o);
  }

  /** A leak in either of two operands. */
  lemma LeakingPair(b: Builder, e: Expr, l: Expr, r: Expr, cl: Computed, cr: Computed, keys: set<string>)
    returns (o: Operand)
    requires (e.Bin? && e.left == l && e.right == r) || (e.Cmp? && e.left == l && e.right == r)
    requires WellFormed(b) && LowerExpr(b, l) == Ok(cl) && LowerExpr(cl.b, r) == Ok(cr) && KeysMatch(b, keys)
    requires !Releasable(l, keys) || !Releasable(r, keys)
    ensures Grown(b, cr.b, multiset{o} + OwedFor(cl.v) + OwedFor(cr.v), false) && o in cr.b.refs && cr.b.refs[o] != -1
    ensures OperandBelow(cl.v, cr.b.next) && OperandBelow(cr.v, cr.b.next)
    decreases e, 0
  {
    hide *;
    NotBalanced(b, l, keys);
    LowerExprGrown(b, l, keys, false);
    OperandOf(b, cl, l, keys);
    KeysKept(b, cl.b, OwedFor(cl.v), false, keys);
    GrownsNext(b, cl.b, OwedFor(cl.v));
    NotBalanced(cl.b, r, keys);
    LowerExprGrown(cl.b, r, keys, false);
    OperandOf(cl.b, cr, r, keys);
    GrownsNext(cl.b, cr.b, OwedFor(cr.v));
    BelowLater(cl.v, cl.b.next, cr.b.next);
    if !Releasable(l, keys) {
      o := LeakingExpr(b, l, keys);
      PairLeaksLeft(b, cl, cr, o);
    } else {
      o := LeakingExpr(cl.b, r, keys);
      PairLeaksRight(b, cl, cr, o);
    }
  }

  lemma NotBalanced(b: Builder, e: Expr, keys: set<string>)
    ensures Balanced(b, e, keys, false)
  {
  }

  lemma OperandOf(b: Builder, c: Computed, e: Expr, keys: set<string>)
    requires ExprGrown(b, c, e, keys, false)
    ensures Grown(b, c.b, OwedFor(c.v), false) && OperandBelow(c.v, c.b.next)
  {
    hide Grown;
  }

  lemma BelowLater(v: Operand, m: nat, n: nat)
    requires OperandBelow(v, m) && m <= n
    ensures OperandBelow(v, n)
  {
  }

  lemma PairLeaksLeft(b: Builder, cl: Computed, cr: Computed, o: Operand)
    requires ExprLeaks(b, cl, o) && Grown(cl.b, cr.b, OwedFor(cr.v), false)
    ensures Grown(b, cr.b, multiset{o} + OwedFor(cl.v) + OwedFor(cr.v), false) && o in cr.b.refs && cr.b.refs[o] != -1
  {
    hide Grown, Steady;
    GrownTrans(b, cl.b, cr.b, OwedFor(cl.v) + multiset{o}, OwedFor(cr.v), false);
    GrownIsSteady(cl.b, cr.b, OwedFor(cr.v), false);
    SteadyLeak(cl.b, cr.b, o);
    assert OwedFor(cl.v) + multiset{o} + OwedFor(cr.v) == multiset{o} + OwedFor(cl.v) + OwedFor(cr.v);
  }

  lemma PairLeaksRight(b: Builder, cl: Computed, cr: Computed, o: Operand)
    requires Grown(b, cl.b, OwedFor(cl.v), false) && ExprLeaks(cl.b, cr, o)
    ensures Grown(b, cr.b, multiset{o} + OwedFor(cl.v) + OwedFor(cr.v), false) && o in cr.b.refs && cr.b.refs[o] != -1
  {
    hide Grown;
    GrownTrans(b, cl.b, cr.b, OwedFor(cl.v), OwedFor(cr.v) + multiset{o}, false);
    assert OwedFor(cl.v) + (OwedFor(cr.v) + multiset{o}) == multiset{o} + OwedFor(cl.v) + OwedFor(cr.v);
  }

  /** An operation releases its operands and leaves a leak alone. */
  lemma UnaryLeaks(b: Builder, c: Computed, op: UnaryOp, o: Operand)
    requires WellFormed(b) && ExprLeaks(b, c, o) && OperandBelow(c.v, c.b.next) && UnResult(c.b, op, c.v).Ok?
    ensures ExprLeaks(b, UnResult(c.b, op, c.v).value, o)
  {
    hide Grown, WellFormed, Steady, VariantUnary, NativeUnaryOp;
    var r := UnResult(c.b, op, c.v).value;
    if IsVariantOperand(c.v) {
      assert OwedFor(c.v) + multiset{o} == multiset{o} + multiset{c.v};
      VariantUnaryGrown(b, c.b, multiset{o}, false, op, c.v);
      SteadyLeak(c.b, r.b, o);
      assert multiset{o} + multiset{r.v} == OwedFor(r.v) + multiset{o};
    } else {
      assert OwedFor(c.v) + multiset{o} == multiset{o};
      NativeUnaryGrown(b, c.b, multiset{o}, false, op, c.v);
      assert multiset{o} == OwedFor(r.v) + multiset{o};
    }
  }

  lemma BinaryLeaks(a: Builder, b: Builder, op: BinaryOp, l: Operand, r: Operand, o: Operand)
    requires WellFormed(a) && Grown(a, b, multiset{o} + OwedFor(l) + OwedFor(r), false) && o in b.refs
    requires b.refs[o] != -1
    requires OperandBelow(l, b.next) && OperandBelow(r, b.next) && BinResult(b, op, l, r).Ok?
    ensures ExprLeaks(a, BinResult(b, op, l, r).value, o)
  {
    hide Grown, WellFormed, Steady, VariantBinary, NativeBinaryOp;
    var c := BinResult(b, op, l, r).value;
    if IsVariantOperand(l) || IsVariantOperand(r) {
      VariantBinaryGrown(a, b, multiset{o}, false, op, l, r);
      SteadyLeak(b, c.b, o);
      assert multiset{o} + multiset{c.v} == OwedFor(c.v) + multiset{o};
    } else {
      assert multiset{o} + OwedFor(l) + OwedFor(r) == multiset{o};
      NativeBinaryGrown(a, b, multiset{o}, false, op, l, r);
      assert multiset{o} == OwedFor(c.v) + multiset{o};
    }
  }

  lemma ComparisonLeaks(a: Builder, b: Builder, op: ComparisonOp, l: Operand, r: Operand, o: Operand)
    requires WellFormed(a) && Grown(a, b, multiset{o} + OwedFor(l) + OwedFor(r), false) && o in b.refs
    requires b.refs[o] != -1
    requires OperandBelow(l, b.next) && OperandBelow(r, b.next) && CmpResult(b, op, l, r).Ok?
    ensures ExprLeaks(a, CmpResult(b, op, l, r).value, o)
  {
    hide Grown, WellFormed, Steady, VariantComparison, NativeComparison;
    var c := CmpResult(b, op, l, r).value;
    if IsVariantOperand(l) || IsVariantOperand(r) {
      VariantComparisonGrown(a, b, multiset{o}, false, op, l, r);
      SteadyLeak(b, c.b, o);
      assert multiset{o} == OwedFor(c.v) + multiset{o};
    } else {
      assert multiset{o} + OwedFor(l) + OwedFor(r) == multiset{o};
      NativeComparisonGrown(a, b, multiset{o}, false, op, l, r);
      assert multiset{o} == OwedFor(c.v) + multiset{o};
    }
  }

  lemma GrownsNext(b: Builder, c: Builder, m: multiset<Operand>)
    requires Grown(b, c, m, false)
    ensures b.next <= c.next && WellFormed(c)
  {
  }

  lemma LeakingBinary(b: Builder, op: BinaryOp, l: Expr, r: Expr, keys: set<string>) returns (o: Operand)
    requires WellFormed(b) && LowerExpr(b, Bin(op, l, r)).Ok? && KeysMatch(b, keys)
    requires !Releasable(l, keys) || !Releasable(r, keys)
    ensures ExprLeaks(b, LowerExpr(b, Bin(op, l, r)).value, o)
    decreases Bin(op, l, r), 1
  {
    hide *;
    BinUnfolds(b, op, l, r);
    var cl := LowerExpr(b, l).value;
    var cr := LowerExpr(cl.b, r).value;
    BinIs(cr.b, op, cl.v, cr.v);
    o := LeakingPair(b, Bin(op, l, r), l, r, cl, cr, keys);
    BinaryLeaks(b, cr.b, op, cl.v, cr.v, o);
  }

  lemma LeakingComparison(b: Builder, op: ComparisonOp, l: Expr, r: Expr, keys: set<string>) returns (o: Operand)
    requires WellFormed(b) && LowerExpr(b, Cmp(op, l, r)).Ok? && KeysMatch(b, keys)
    requires !Releasable(l, keys) || !Releasable(r, keys)
    ensures ExprLeaks(b, LowerExpr(b, Cmp(op, l, r)).value, o)
    decreases Cmp(op, l, r), 1
  {
    hide *;
    CmpUnfolds(b, op, l, r);
    var cl := LowerExpr(b, l).value;
    var cr := LowerExpr(cl.b, r).value;
    CmpIs(cr.b, op, cl.v, cr.v);
    o := LeakingPair(b, Cmp(op, l, r), l, r, cl, cr, keys);
    ComparisonLeaks(b, cr.b, op, cl.v, cr.v, o);
  }

  // ---------- Calls ----------

  /** Either argument i is counted, and will be forgotten, or o leaks already. */
  ghost predicate ArgsLeak(b: Builder, c: Arguments, o: Operand, i: int) {
    && o in c.b.refs && c.b.refs[o] != -1
    && if 0 <= i < |c.vs| then c.vs[i] == o && IsVariantOperand(o) && Grown(b, c.b, OwedForAll(c.vs), false)
       else Grown(b, c.b, OwedForAll(c.vs) + multiset{o}, false)
  }

  lemma {:induction false} LeakingArgs(b: Builder, es: seq<Expr>, keys: set<string>) returns (o: Operand, i: int)
    requires WellFormed(b) && LowerExprs(b, es).Ok? && KeysMatch(b, keys) && !ReleasableArgs(es, keys)
    ensures ArgsLeak(b, LowerExprs(b, es).value, o, i)
    decreases es, 2
  {
    assert LowerExpr(b, es[0]).Ok?;
    var c := LowerExpr(b, es[0]).value;
    assert LowerExprs(c.b, es[1..]).Ok?;
    var cs := LowerExprs(c.b, es[1..]).value;
    assert LowerExprs(b, es).value == Arguments([c.v] + cs.vs, cs.b);
    hide LowerExpr, LowerExprs, ArgsLeak, Grown, WellFormed, KeysMatch, Steady, ExprGrown, Releasable, OwedForAll,
         OwedFor;
    LowerExprGrown(b, es[0], keys, false);
    ExprGrownParts(b, c, es[0], keys, false);
    KeysKept(b, c.b, OwedFor(c.v), false, keys);
    GrownsNext(b, c.b, OwedFor(c.v));
    LowerExprsGrown(c.b, es[1..], keys, false);
    if !Releasable(es[0], keys) {
      o := LeakingExpr(b, es[0], keys);
      i := -1;
      FirstLeaks(b, c, cs, o);
    } else if CountedExpr(es[0], keys) {
      LowerExprGrown(b, es[0], keys, true);
      o, i := c.v, 0;
      FirstCounted(b, c, cs, es[0], keys);
    } else {
      o, i := LeakingArgs(c.b, es[1..], keys);
      RestLeaks(b, c, cs, o, i);
      i := if 0 <= i < |cs.vs| then i + 1 else -1;
    }
  }

  lemma OwedForCons(v: Operand, vs: seq<Operand>)
    ensures OwedForAll([v] + vs) == OwedFor(v) + OwedForAll(vs)
  {
    assert ([v] + vs)[1..] == vs;
  }

  lemma FirstLeaks(b: Builder, c: Computed, cs: Arguments, o: Operand)
    requires ExprLeaks(b, c, o) && Grown(c.b, cs.b, OwedForAll(cs.vs), false)
    ensures ArgsLeak(b, Arguments([c.v] + cs.vs, cs.b), o, -1)
  {
    hide Grown, Steady, OwedFor, OwedForAll;
    OwedForCons(c.v, cs.vs);
    GrownTrans(b, c.b, cs.b, OwedFor(c.v) + multiset{o}, OwedForAll(cs.vs), false);
    assert OwedFor(c.v) + multiset{o} + OwedForAll(cs.vs) == OwedForAll([c.v] + cs.vs) + multiset{o};
    GrownIsSteady(c.b, cs.b, OwedForAll(cs.vs), false);
    SteadyLeak(c.b, cs.b, o);
  }

  lemma FirstCounted(b: Builder, c: Computed, cs: Arguments, e: Expr, keys: set<string>)
    requires ExprGrown(b, c, e, keys, true) && CountedExpr(e, keys) && Grown(c.b, cs.b, OwedForAll(cs.vs), false)
    requires Grown(b, c.b, OwedFor(c.v), false)
    ensures ArgsLeak(b, Arguments([c.v] + cs.vs, cs.b), c.v, 0)
  {
    hide Grown, Steady, OwedFor, OwedForAll;
    OwedForCons(c.v, cs.vs);
    CountedIsVariant(e, keys);
    GrownTrans(b, c.b, cs.b, OwedFor(c.v), OwedForAll(cs.vs), false);
    GrownIsSteady(c.b, cs.b, OwedForAll(cs.vs), false);
    SteadyLeak(c.b, cs.b, c.v);
  }

  lemma CountedIsVariant(e: Expr, keys: set<string>)
    requires CountedExpr(e, keys)
    ensures IsVariant(e)
  {
  }

  lemma RestLeaks(b: Builder, c: Computed, cs: Arguments, o: Operand, i: int)
    requires Grown(b, c.b, OwedFor(c.v), false) && ArgsLeak(c.b, cs, o, i)
    ensures ArgsLeak(b, Arguments([c.v] + cs.vs, cs.b), o, if 0 <= i < |cs.vs| then i + 1 else -1)
  {
    hide Grown, OwedFor, OwedForAll;
    OwedForCons(c.v, cs.vs);
    if 0 <= i < |cs.vs| {
      GrownTrans(b, c.b, cs.b, OwedFor(c.v), OwedForAll(cs.vs), false);
    } else {
      GrownTrans(b, c.b, cs.b, OwedFor(c.v), OwedForAll(cs.vs) + multiset{o}, false);
      assert OwedFor(c.v) + (OwedForAll(cs.vs) + multiset{o}) == OwedForAll([c.v] + cs.vs) + multiset{o};
    }
  }

  /** Wrapping forgets all arguments but one. */
  lemma {:induction false} WrapAllLeaks(a: Builder, b: Builder, m: multiset<Operand>, vs: seq<Operand>, i: nat)
    requires WellFormed(a) && Grown(a, b, m + OwedForAll(vs), false) && i < |vs| && IsVariantOperand(vs[i])
    ensures Grown(a, WrapAll(b, vs).b, m + multiset{vs[i]}, false)
    decreases vs
  {
    hide Grown, WellFormed;
    var rest := OwedForAll(vs[1..]);
    var w := WrapAsVariant(b, vs[0]);
    assert m + OwedForAll(vs) == m + rest + OwedFor(vs[0]);
    if i == 0 {
      assert m + rest + OwedFor(vs[0]) == m + multiset{vs[0]} + rest;
      WrapAllGrown(a, b, m + multiset{vs[0]}, false, vs[1..]);
    } else {
      WrapGrown(a, b, m + rest, false, vs[0]);
      OwedAreRegisters(a, w.b, m + rest + multiset{w.v}, false, w.v);
      GrownForget(a, w.b, m + rest + multiset{w.v}, false, w.v);
      assert m + rest + multiset{w.v} - multiset{w.v} == m + rest;
      WrapAllLeaks(a, w.b, m, vs[1..], i - 1);
    }
  }

  lemma MethodCallLeaks(a: Builder, b: Builder, name: string, vs: seq<Operand>, i: nat)
    requires WellFormed(a) && Grown(a, b, OwedForAll(vs), false) && i < |vs| && IsVariantOperand(vs[i])
    ensures MethodCall(b, name, vs).Ok?
    ensures var c := MethodCall(b, name, vs).value; Grown(a, c.b, multiset{vs[i]} + multiset{c.v}, false)
  {
    hide Grown, WellFormed, WrapAll, Emit, ReturnIfFails, OwedForAll;
    var m := multiset{vs[i]};
    assert multiset{} + OwedForAll(vs) == OwedForAll(vs) && multiset{} + m == m;
    WrapAllLeaks(a, b, multiset{}, vs, i);
    var ws := WrapAll(b, vs);
    var dst, ok := ws.b.next, ws.b.next + 1;
    var call := CallMethod(dst, name, ws.vs);
    FreshOperand(a, ws.b, m, false, dst);
    GrownEmit(a, ws.b, m, false, 2, call);
    GrownSetRef(a, Emit(Fresh(ws.b, 2), call), m, false, Variant(dst), 1);
    var b1 := SetRef(Emit(Fresh(ws.b, 2), call), Variant(dst), 1);
    var owed := m + multiset{Variant(dst)};
    GrownEmit(a, b1, owed, false, 0, NotNull(ok, dst));
    GrownCheck(a, Emit(b1, NotNull(ok, dst)), owed, false, Reg(ok, I1));
  }

  lemma CallLeaks(b: Builder, c: Arguments, m: string, o: Operand, i: int)
    requires WellFormed(b) && ArgsLeak(b, c, o, i)
    ensures MethodCall(c.b, m, c.vs).Ok? && ExprLeaks(b, MethodCall(c.b, m, c.vs).value, o)
  {
    hide Grown, WellFormed, Steady, MethodCall, OwedForAll;
    if 0 <= i < |c.vs| {
      assert multiset{} + OwedForAll(c.vs) == OwedForAll(c.vs);
      MethodCallGrown(b, c.b, multiset{}, false, m, c.vs);
      MethodCallLeaks(b, c.b, m, c.vs, i);
    } else {
      assert OwedForAll(c.vs) + multiset{o} == multiset{o} + OwedForAll(c.vs);
      MethodCallGrown(b, c.b, multiset{o}, false, m, c.vs);
    }
    var r := MethodCall(c.b, m, c.vs).value;
    SteadyLeak(c.b, r.b, o);
    assert multiset{o} + multiset{r.v} == OwedFor(r.v) + multiset{o};
  }

  lemma LeakingCall(b: Builder, m: string, args: seq<Expr>, keys: set<string>) returns (o: Operand)
    requires WellFormed(b) && LowerExpr(b, Call(m, args)).Ok? && KeysMatch(b, keys) && !ReleasableArgs(args, keys)
    ensures ExprLeaks(b, LowerExpr(b, Call(m, args)).value, o)
    decreases Call(m, args), 1
  {
    hide *;
    CallUnfolds(b, m, args);
    var o', i := LeakingArgs(b, args, keys);
    CallLeaks(b, LowerExprs(b, args).value, m, o', i);
    o := o';
  }

  /** Lowering an expression leaves every count exactly what is owed if and only if no argument
      of a call in it is counted. */
  lemma ExprCountsExactly(b: Builder, e: Expr, keys: set<string>)
    requires WellFormed(b) && LowerExpr(b, e).Ok? && KeysMatch(b, keys)
    ensures var c := LowerExpr(b, e).value; Owes(b, c.b, OwedFor(c.v), true) <==> Releasable(e, keys)
  {
    hide Owes, WellFormed, KeysMatch, LowerExpr, Releasable;
    var c := LowerExpr(b, e).value;
    if Releasable(e, keys) {
      LowerExprGrown(b, e, keys, true);
      ExprGrownParts(b, c, e, keys, true);
    } else {
      var o := LeakingExpr(b, e, keys);
      GrownParts(b, c.b, OwedFor(c.v) + multiset{o}, false);
      LeakIsInexact(b, c.b, OwedFor(c.v), o);
    }
  }

  // ---------- Statements ----------

  lemma {:induction false} LeakingStmt(b: Builder, t: AST, keys: set<string>) returns (o: Operand)
    requires WellFormed(b) && LowerStmt(b, t).Ok? && KeysMatch(b, keys) && !ReleasableStmt(t, keys)
    ensures Leaks(b, LowerStmt(b, t).value, multiset{}, o)
    decreases t, 2
  {
    match t
    case Statements(l) => o := LeakingStmts(b, l, keys);
    case Print(e) => o := LeakingPrint(b, e, keys);
    case If(c, a, els) => o := LeakingIf(b, c, a, els, keys);
    case For(k, v, it, a, els) => o := LeakingFor(b, k, v, it, a, els, keys);
  }

  lemma {:induction false} LeakingOpt(b: Builder, t: Option<AST>, keys: set<string>) returns (o: Operand)
    requires WellFormed(b) && LowerOpt(b, t).Ok? && KeysMatch(b, keys) && !ReleasableOpt(t, keys)
    ensures Leaks(b, LowerOpt(b, t).value, multiset{}, o)
    decreases t, 0
  {
    o := LeakingStmt(b, t.value, keys);
  }

  lemma {:induction false} LeakingStmts(b: Builder, l: seq<AST>, keys: set<string>) returns (o: Operand)
    requires WellFormed(b) && LowerStmts(b, l).Ok? && KeysMatch(b, keys) && !ReleasableStmts(l, keys)
    ensures Leaks(b, LowerStmts(b, l).value, multiset{}, o)
    decreases l, 0
  {
    assert LowerStmt(b, l[0]).Ok?;
    var b1 := LowerStmt(b, l[0]).value;
    assert LowerStmts(b, l) == LowerStmts(b1, l[1..]);
    var b2 := LowerStmts(b1, l[1..]).value;
    hide WellFormed, KeysMatch, Leaks, LowerStmt, Owes, StmtGrown;
    LowerStmtGrown(b, l[0], keys, false);
    StmtGrownParts(b, b1, false);
    KeysKeptByStmt(b, b1, false, keys);
    LowerStmtsGrown(b1, l[1..], keys, false);
    StmtGrownParts(b1, b2, false);
    if !ReleasableStmt(l[0], keys) {
      o := LeakingStmt(b, l[0], keys);
      LeakBefore(b, b1, b2, multiset{}, multiset{}, o);
    } else {
      o := LeakingStmts(b1, l[1..], keys);
      LeakAfter(b, b1, b2, multiset{}, multiset{}, o);
    }
    NothingTwice();
  }

  lemma LeakingPrint(b: Builder, e: Expr, keys: set<string>) returns (o: Operand)
    requires WellFormed(b) && LowerStmt(b, Print(e)).Ok? && KeysMatch(b, keys) && !Releasable(e, keys)
    ensures Leaks(b, LowerStmt(b, Print(e)).value, multiset{}, o)
  {
    hide *;
    PrintUnfolds(b, e);
    var c := LowerExpr(b, e).value;
    var b1 := Emit(c.b, CallPrint(c.v));
    o := LeakingExpr(b, e, keys);
    PrintLeaks(b, c, o);
  }

  lemma PrintLeaks(b: Builder, c: Computed, o: Operand)
    requires WellFormed(b) && ExprLeaks(b, c, o)
    ensures var b1 := Emit(c.b, CallPrint(c.v));
            if IsVariantOperand(c.v)
              then GoesOutOfScope(b1, c.v).Ok? && Leaks(b, GoesOutOfScope(b1, c.v).value, multiset{}, o)
            else Leaks(b, b1, multiset{}, o)
  {
    var b1 := Emit(c.b, CallPrint(c.v));
    assert c.b.refs == b1.refs;
    hide Owes, WellFormed, Grows, Emit, GoesOutOfScope, Steady;
    GrownEmit(b, c.b, OwedFor(c.v) + multiset{o}, false, 0, CallPrint(c.v));
    assert Fresh(c.b, 0) == c.b;
    if IsVariantOperand(c.v) {
      ReleaseLeaks(b, b1, c.v, o);
    } else {
      assert OwedFor(c.v) + multiset{o} == multiset{} + multiset{o};
    }
  }

  /** Releasing what is owed leaves a leak alone. */
  lemma ReleaseLeaks(a: Builder, b: Builder, v: Operand, o: Operand)
    requires WellFormed(a) && Grown(a, b, OwedFor(v) + multiset{o}, false) && IsVariantOperand(v)
    requires o in b.refs && b.refs[o] != -1
    ensures GoesOutOfScope(b, v).Ok? && Leaks(a, GoesOutOfScope(b, v).value, multiset{}, o)
  {
    hide Owes, WellFormed, Grows, GoesOutOfScope, Steady;
    GrownRelease(a, b, OwedFor(v) + multiset{o}, false, v);
    assert OwedFor(v) + multiset{o} - multiset{v} == multiset{} + multiset{o};
    SteadyLeak(b, GoesOutOfScope(b, v).value, o);
  }

  /** The builders of a conditional, as far as counts go. */
  lemma IfChain(c: Builder, cond: Operand, a: AST, els: Option<AST>, p: Builder, b1: Builder, e: Builder, b2: Builder,
                keys: set<string>)
    requires WellFormed(c) && p == IfStart(c, cond) && LowerStmt(p, a) == Ok(b1) && |c.blocks| + 2 < |b1.blocks|
    requires e == IfElse(b1, |c.blocks|) && LowerOpt(e, els) == Ok(b2) && |c.blocks| + 2 < |b2.blocks|
    requires KeysMatch(c, keys)
    ensures WellFormed(p) && KeysMatch(p, keys) && WellFormed(e) && KeysMatch(e, keys)
    ensures Owes(c, p, multiset{}, false) && Owes(c, e, multiset{}, false)
    ensures c.next <= p.next <= b1.next && c.next <= e.next <= b2.next
    ensures var f := IfEnd(b2, |c.blocks|);
            && Owes(b1, f, multiset{}, false) && Owes(c, f, multiset{}, false)
            && b1.next <= f.next && f.next == b2.next && f.refs == b2.refs
  {
    hide *;
    var f := IfEnd(b2, |c.blocks|);
    IfBuilders(c, cond, a, els, p, b1, e, b2, keys, false);
    WellFormedOpen(c);
    IfStartKeeps(c, cond);
    SameRefs(c, p, false, keys);
    NotBalancedStmt(p, a, keys);
    LowerStmtGrown(p, a, keys, false);
    StmtGrownParts(p, b1, false);
    KeysKeptByStmt(p, b1, false, keys);
    IfElseOpen(c, cond, b1);
    SameRefs(b1, e, false, keys);
    LowerOptGrown(e, els, keys, false);
    StmtGrownParts(e, b2, false);
    IfEndKeeps(b2, |c.blocks|);
    OwesChain(c, e, b2, f, false);
  }

  lemma NotBalancedStmt(b: Builder, t: AST, keys: set<string>)
    ensures BalancedStmt(b, t, keys, false)
  {
  }

  /** A condition is no variant, so only the leak is left over. */
  lemma ConditionLeaks(b: Builder, c: Computed, o: Operand)
    requires ExprLeaks(b, c, o) && OwedFor(c.v) == multiset{}
    ensures Leaks(b, c.b, multiset{}, o)
  {
    GrownParts(b, c.b, OwedFor(c.v) + multiset{o}, false);
  }

  lemma ExprLeakParts(b: Builder, c: Computed, o: Operand)
    requires ExprLeaks(b, c, o)
    ensures Leaks(b, c.b, OwedFor(c.v), o)
  {
    GrownParts(b, c.b, OwedFor(c.v) + multiset{o}, false);
  }

  lemma LeakingIf(b: Builder, cond: Expr, a: AST, els: Option<AST>, keys: set<string>) returns (o: Operand)
    requires WellFormed(b) && LowerStmt(b, If(cond, a, els)).Ok? && KeysMatch(b, keys)
    requires !ReleasableStmt(If(cond, a, els), keys)
    ensures Leaks(b, LowerStmt(b, If(cond, a, els)).value, multiset{}, o)
    decreases If(cond, a, els), 1
  {
    hide *;
    var c, p, b1, e, b2 := IfUnfolds(b, cond, a, els);
    var f := IfEnd(b2, |c.b.blocks|);
    NotBalanced(b, cond, keys);
    LowerExprGrown(b, cond, keys, false);
    ExprGrownParts(b, c, cond, keys, false);
    OperandOf(b, c, cond, keys);
    GrownsNext(b, c.b, OwedFor(c.v));
    ConditionOwesNothing(c.v);
    KeysKept(b, c.b, OwedFor(c.v), false, keys);
    IfChain(c.b, c.v, a, els, p, b1, e, b2, keys);
    NothingTwice();
    if !Releasable(cond, keys) {
      o := LeakingExpr(b, cond, keys);
      ConditionLeaks(b, c, o);
      LeakBefore(b, c.b, f, multiset{}, multiset{}, o);
    } else if !ReleasableStmt(a, keys) {
      o := LeakingStmt(p, a, keys);
      LeakBefore(p, b1, f, multiset{}, multiset{}, o);
      LeakAfter(c.b, p, f, multiset{}, multiset{}, o);
      LeakAfter(b, c.b, f, multiset{}, multiset{}, o);
    } else {
      IfNotReleasable(cond, a, els, keys);
      o := LeakingOpt(e, els, keys);
      SameCountsLeak(e, b2, f, multiset{}, o);
      LeakAfter(c.b, e, f, multiset{}, multiset{}, o);
      LeakAfter(b, c.b, f, multiset{}, multiset{}, o);
    }
  }

  lemma IfNotReleasable(cond: Expr, a: AST, els: Option<AST>, keys: set<string>)
    requires !ReleasableStmt(If(cond, a, els), keys)
    ensures !Releasable(cond, keys) || !ReleasableStmt(a, keys) || !ReleasableOpt(els, keys)
  {
  }

  // ---------- Loops ----------

  /** The builders of a loop, as far as counts go. */
  lemma LoopChain(l: Loop, keys: set<string>)
    requires Staged(l) && WellFormed(l.b) && KeysMatch(l.b, keys)
    ensures WellFormed(l.p) && WellFormed(l.body) && KeysMatch(l.body, BodyKeys(l.k, l.v, keys))
    ensures WellFormed(l.b5) && KeysMatch(l.b5, keys)
    ensures Owes(l.b, l.c.b, OwedFor(l.c.v), false) && Owes(l.c.b, l.p, multiset{}, false)
    ensures Owes(l.p, l.body, OwedForVars(VarsIn(l)), false) && Owes(l.c.b, l.b5, multiset{}, false)
    ensures Owes(l.b5, l.b6, multiset{}, false) && Grows(l.p, l.b3)
    ensures l.b.next <= l.c.b.next <= l.p.next <= l.body.next <= l.b3.next
    ensures l.b4.next == l.b3.next && l.b5.refs == l.b4.refs && l.b4.next <= l.b5.next <= l.b6.next
    ensures PartsIn(l).after < |l.b6.blocks| && Owes(l.c.b, EndOf(l), multiset{}, false)
    ensures EndOf(l).refs == l.b6.refs && EndOf(l).next == l.b6.next
  {
    hide *;
    NotBalancedStmt(l.b, For(l.k, l.v, l.it, l.a, l.els), keys);
    LoopIsBuilt(l, keys, false);
    StagedParts(l);
    PartsAre(l);
    ExprGrownParts(l.b, l.c, l.it, keys, false);
    OperandOf(l.b, l.c, l.it, keys);
    GrownsNext(l.b, l.c.b, OwedFor(l.c.v));
    KeysKept(l.b, l.c.b, OwedFor(l.c.v), false, keys);
    BodyStart(l.c.b, l.c.v, l.k, l.v, l.p, l.body, keys, true);
    BodyStart(l.c.b, l.c.v, l.k, l.v, l.p, l.body, keys, false);
    GrowsTrans(l.p, l.body, l.b3);
    NextOpen(l.c.b, l.c.v, l.p, l.b4, l.b5);
    OwesKeepsKeys(l.c.b, l.b5, multiset{}, false, keys);
    LowerOptGrown(l.b5, l.els, keys, false);
    StmtGrownParts(l.b5, l.b6, false);
  }

  /** Releasing the loop variables leaves a leak alone. */
  lemma DropLeaks(a: Builder, b: Builder, vars: LoopVars, o: Operand)
    requires WellFormed(a) && Grows(a, b) && Leaks(a, b, OwedForVars(vars), o)
    ensures DropVariables(b, vars).Ok? && Leaks(a, DropVariables(b, vars).value, multiset{}, o)
  {
    hide *;
    var b1 := b;
    var m1 := if vars.val.Some? then multiset{Variant(vars.val.value)} else multiset{};
    VarsOwed(vars);
    if vars.key.Some? {
      OneLeaks(a, b, Variant(vars.key.value), m1, o);
      b1 := GoesOutOfScope(b, Variant(vars.key.value)).value;
    }
    if vars.val.Some? {
      NothingMore(m1);
      OneLeaks(a, b1, Variant(vars.val.value), multiset{}, o);
    }
    DropIs(b, vars);
  }

  lemma VarsOwed(vars: LoopVars)
    ensures var m1 := if vars.val.Some? then multiset{Variant(vars.val.value)} else multiset{};
            OwedForVars(vars) == if vars.key.Some? then multiset{Variant(vars.key.value)} + m1 else m1
  {
  }

  lemma DropIs(b: Builder, vars: LoopVars)
    ensures vars.key.Some? && GoesOutOfScope(b, Variant(vars.key.value)).Err? ==>
              DropVariables(b, vars) == GoesOutOfScope(b, Variant(vars.key.value))
    ensures vars.key.Some? ==> GoesOutOfScope(b, Variant(vars.key.value)).Ok? ==>
              var b1 := GoesOutOfScope(b, Variant(vars.key.value)).value;
              DropVariables(b, vars) == if vars.val.Some? then GoesOutOfScope(b1, Variant(vars.val.value)) else Ok(b1)
    ensures vars.key.None? ==>
              DropVariables(b, vars) == if vars.val.Some? then GoesOutOfScope(b, Variant(vars.val.value)) else Ok(b)
  {
    hide GoesOutOfScope;
  }

  /** One release. */
  lemma OneLeaks(a: Builder, b: Builder, v: Operand, m: multiset<Operand>, o: Operand)
    requires WellFormed(a) && Grows(a, b) && Leaks(a, b, multiset{v} + m, o)
    ensures GoesOutOfScope(b, v).Ok?
    ensures Grows(a, GoesOutOfScope(b, v).value) && Leaks(a, GoesOutOfScope(b, v).value, m, o)
  {
    hide Grows, Owes, WellFormed, GoesOutOfScope, Steady;
    ReleaseOwed(a, b, multiset{v} + m + multiset{o}, false, v);
    assert multiset{v} + m + multiset{o} - multiset{v} == m + multiset{o};
    SteadyLeak(b, GoesOutOfScope(b, v).value, o);
  }

  lemma ReleaseKeeps(a: Builder, b: Builder, m: multiset<Operand>, v: Operand)
    requires WellFormed(a) && Owes(a, b, m, false) && v in m
    ensures GoesOutOfScope(b, v).Ok? && Owes(a, GoesOutOfScope(b, v).value, m - multiset{v}, false)
    ensures Steady(b, GoesOutOfScope(b, v).value)
  {
    hide Owes, WellFormed, Emit;
    OwesRelease(a, b, m, false, v);
    if b.refs[v] != -1 {
      var b1 := SetRef(b, v, b.refs[v] - 1);
      EmitKeeps(b1, CallDestruct(v));
      SameRefsOwe(a, b1, Emit(b1, CallDestruct(v)), m - multiset{v}, false);
    }
  }

  lemma EndLeaks(a: Builder, b: Builder, v: Operand, o: Operand)
    requires WellFormed(a) && Leaks(a, b, OwedFor(v), o) && IsVariantOperand(v)
    ensures GoesOutOfScope(b, v).Ok? && Leaks(a, GoesOutOfScope(b, v).value, multiset{}, o)
  {
    hide Owes, WellFormed, Emit;
    var m := OwedFor(v) + multiset{o};
    assert m - multiset{v} == multiset{} + multiset{o};
    ReleaseKeeps(a, b, m, v);
    SteadyLeak(b, GoesOutOfScope(b, v).value, o);
  }

  lemma LeakingFor(b: Builder, k: Option<string>, v: Option<string>, it: Expr, a: AST, els: Option<AST>,
                   keys: set<string>)
    returns (o: Operand)
    requires WellFormed(b) && LowerStmt(b, For(k, v, it, a, els)).Ok? && KeysMatch(b, keys)
    requires !ReleasableStmt(For(k, v, it, a, els), keys)
    ensures Leaks(b, LowerStmt(b, For(k, v, it, a, els)).value, multiset{}, o)
    decreases For(k, v, it, a, els), 1
  {
    hide *;
    var c, p, body, b3, b4, b5, b6 := LoopUnfolds(b, k, v, it, a, els);
    var l := Loop(b, k, v, it, a, els, c, p, body, b3, b4, b5, b6);
    StagedIs(l);
    StagedParts(l);
    LoopChain(l, keys);
    var end := EndOf(l);
    var owed := OwedFor(c.v);
    NothingMore(owed);
    NothingTwice();
    if !Releasable(it, keys) {
      o := LeakingExpr(b, it, keys);
      ExprLeakParts(b, c, o);
      LeakBefore(b, c.b, end, owed, multiset{}, o);
    } else if !ReleasableStmt(a, BodyKeys(k, v, keys)) {
      o := LeakingStmt(body, a, BodyKeys(k, v, keys));
      BodyLeaks(l, o);
      LeakAfter(b, c.b, end, owed, multiset{}, o);
    } else {
      ForNotReleasable(k, v, it, a, els, keys);
      o := LeakingOpt(b5, els, keys);
      SameCountsLeak(b5, b6, end, multiset{}, o);
      LeakAfter(c.b, b5, end, multiset{}, multiset{}, o);
      LeakAfter(b, c.b, end, owed, multiset{}, o);
    }
    EndLeaks(b, end, c.v, o);
  }

  lemma NothingMore(m: multiset<Operand>)
    ensures m + multiset{} == m && multiset{} + m == m
  {
  }

  /** From the loop's body to its end. */
  lemma BodyLeaks(l: Loop, o: Operand)
    requires Staged(l) && WellFormed(l.p) && Grows(l.p, l.b3) && Leaks(l.body, l.b3, multiset{}, o)
    requires Owes(l.c.b, l.p, multiset{}, false) && Owes(l.p, l.body, OwedForVars(VarsIn(l)), false)
    requires Owes(l.b5, l.b6, multiset{}, false)
    requires l.c.b.next <= l.p.next <= l.body.next <= l.b3.next
    requires l.b4.next == l.b3.next && l.b5.refs == l.b4.refs && l.b4.next <= l.b5.next <= l.b6.next
    requires PartsIn(l).after < |l.b6.blocks| && EndOf(l).refs == l.b6.refs && EndOf(l).next == l.b6.next
    ensures Leaks(l.c.b, EndOf(l), multiset{}, o)
  {
    hide *;
    var vars := VarsIn(l);
    StagedParts(l);
    DropBlocks(l);
    NothingMore(OwedForVars(vars));
    NothingTwice();
    LeakAfter(l.p, l.body, l.b3, OwedForVars(vars), multiset{}, o);
    DropLeaks(l.p, l.b3, vars, o);
    var d := DropVariables(l.b3, vars).value;
    DropNext(l.b3, vars);
    SameCountsLeak(l.p, d, l.b5, multiset{}, o);
    LeakBefore(l.p, l.b5, l.b6, multiset{}, multiset{}, o);
    SameCountsLeak(l.p, l.b6, EndOf(l), multiset{}, o);
    LeakAfter(l.c.b, l.p, EndOf(l), multiset{}, multiset{}, o);
  }

  lemma ForNotReleasable(k: Option<string>, v: Option<string>, it: Expr, a: AST, els: Option<AST>, keys: set<string>)
    requires !ReleasableStmt(For(k, v, it, a, els), keys)
    ensures !Releasable(it, keys) || !ReleasableStmt(a, BodyKeys(k, v, keys)) || !ReleasableOpt(els, keys)
  {
  }

  // ---------- The theorems ----------

  /** Lowering a statement leaves every count as it was if and only if no argument of a call in
      it is counted. */
  lemma StmtCountsExactly(b: Builder, t: AST, keys: set<string>)
    requires WellFormed(b) && LowerStmt(b, t).Ok? && KeysMatch(b, keys)
    ensures Owes(b, LowerStmt(b, t).value, multiset{}, true) <==> ReleasableStmt(t, keys)
  {
    hide *;
    var b' := LowerStmt(b, t).value;
    if ReleasableStmt(t, keys) {
      IsBalanced(b, t, keys, true);
      LowerStmtGrown(b, t, keys, true);
      StmtGrownParts(b, b', true);
    } else {
      var o := LeakingStmt(b, t, keys);
      LeakIsInexact(b, b', multiset{}, o);
    }
  }

  /** A compiled template has released every reference at its end, on paper, if and only if it
      passes no counted value to a call. */
  lemma TemplateCountsExactly(t: AST)
    requires LowerTemplate(t).Ok?
    ensures (forall o :: o in LowerTemplate(t).value.refs ==> LowerTemplate(t).value.refs[o] <= 0) <==>
                ReleasableStmt(t, {})
  {
    var b0 := ENTRY;
    TemplateUnfolds(t);
    var b := LowerStmt(b0, t).value;
    assert b0.refs == map[] && WellFormed(b0) && KeysMatch(b0, {});
    assert LowerTemplate(t).value.refs == b.refs;
    hide *;
    StmtCountsExactly(b0, t, {});
    NotBalancedStmt(b0, t, {});
    LowerStmtGrown(b0, t, {}, false);
    StmtGrownParts(b0, b, false);
    NothingOwed(b0, b);
  }

  lemma NothingOwed(b0: Builder, b: Builder)
    requires b0.refs == map[] && Owes(b0, b, multiset{}, false) && WellFormed(b)
    ensures (forall o :: o in b.refs ==> b.refs[o] <= 0) <==> Owes(b0, b, multiset{}, true)
  {
  }

  // ---------- Printing one expression ----------

  /** The compiled function of a printed expression that evaluates: it has used storage after
      its end exactly when an attribute of a temporary is found, and a temporary is left over
      exactly when a counted value is an argument of a call. */
  lemma PrintedExactly(m: Machine, e: Expr) returns (s: State)
    requires Runnable(m.h, e) && LowerTemplate(Print(e)).Ok?
    requires m.blocks == LowerTemplate(Print(e)).value.blocks && Eval(m.h, e, DataEnv(m.data)).Some?
    ensures Reaches(m, At(0, 0, INITIAL), Done(s)) && !s.recreated
    ensures s.dangling <==> TakesFromTemporary(m.h, e, DataEnv(m.data))
    ensures s.live == {} <==> Releasable(e, {})
  {
    hide *;
    var b0, t, env, w := ENTRY, Print(e), DataEnv(m.data), World(m.h, map[], "");
    var track := Tracked(true, {}, 0);
    TemplateUnfolds(t);
    var b := LowerStmt(b0, t).value;
    EntryReady(m, track, true);
    PrintGrows(b0, e);
    EndOpen(b);
    TheFunctionItself(m, Terminate(b, RetVoid));
    WithinTerminate(b, RetVoid, m);
    PrintParts(w, 0, e, env);
    s := PrintRuns(m, w, 0, b0, e, INITIAL, env, track, true);
    var o := Render(w, 0, t, env);
    NothingPrinted(o.text);
    SameExact(track, b, b);
    RanOkParts(m, b0, INITIAL, b, o, s, From(track, b), Rooted(e));
    Returns(m, b, s);
    TemplateCountsExactly(t);
    CountedAreLeft(t, e, b, s, From(track, b));
  }

  lemma CountedAreLeft(t: AST, e: Expr, b: Builder, s: State, track: Tracked)
    requires t == Print(e) && LowerTemplate(t).Ok? && LowerTemplate(t).value == Terminate(b, RetVoid)
    requires WellFormed(b) && Alive(b, s, track) && track.exact
    requires (forall o :: o in LowerTemplate(t).value.refs ==> LowerTemplate(t).value.refs[o] <= 0) <==>
               ReleasableStmt(t, {})
    ensures s.live == {} <==> Releasable(e, {})
    ensures !s.recreated
  {
    assert ReleasableStmt(t, {}) <==> Releasable(e, {});
    hide LowerTemplate, Releasable, ReleasableStmt;
    forall o | o in b.refs && b.refs[o] >= 1
      ensures s.live != {}
    {
      assert o == Variant(o.id) && Counted(b, o.id);
    }
  }
}
