/** What lowering keeps, whatever it lowers: finished blocks never change, exactly one block
    stays open, and the reference counts of earlier values grow by what is still owed. */
module LoweringFrames {
  import opened Results
  import opened Ast
  import opened Ir
  import opened Lowering

  // ---------- Blocks ----------

  /** A finished block stays; an open one is extended at its end. */
  predicate BlockLe(a: Block, b: Block) {
    if a.term.Some? then a == b else a.instrs <= b.instrs
  }

  predicate BlocksLe(a: seq<Block>, b: seq<Block>) {
    |a| <= |b| && forall i :: 0 <= i < |a| ==> BlockLe(a[i], b[i])
  }

  lemma BlocksLeTrans(a: seq<Block>, b: seq<Block>, c: seq<Block>)
    requires BlocksLe(a, b) && BlocksLe(b, c)
    ensures BlocksLe(a, c)
  {
    forall i | 0 <= i < |a|
      ensures BlockLe(a[i], c[i])
    {
      assert BlockLe(a[i], b[i]) && BlockLe(b[i], c[i]);
    }
  }

  predicate Open(b: Builder) {
    b.blocks[b.cur].term.None?
  }

  /** Only the block at the insertion point is extended; when the insertion point has moved,
      that block and all new blocks but the current one are finished. */
  ghost predicate Grows(a: Builder, b: Builder) {
    && a.next <= b.next
    && |a.blocks| <= |b.blocks|
    && (forall i :: 0 <= i < |a.blocks| && i != a.cur ==> b.blocks[i] == a.blocks[i])
    && BlockLe(a.blocks[a.cur], b.blocks[a.cur])
    && (b.cur == a.cur || |a.blocks| <= b.cur)
    && Open(b)
    && (forall i :: |a.blocks| <= i < |b.blocks| && i != b.cur ==> b.blocks[i].term.Some?)
    && (b.cur != a.cur ==> b.blocks[a.cur].term.Some?)
  }

  lemma GrowsSelf(a: Builder)
    requires Open(a)
    ensures Grows(a, a)
  {
  }

  lemma GrowsTrans(a: Builder, b: Builder, c: Builder)
    requires Grows(a, b) && Grows(b, c)
    ensures Grows(a, c)
  {
  }

  lemma GrowsLe(a: Builder, b: Builder)
    requires Grows(a, b)
    ensures BlocksLe(a.blocks, b.blocks)
  {
  }

  lemma GrowsEmit(a: Builder, b: Builder, i: Instr)
    requires Grows(a, b)
    ensures Grows(a, Emit(b, i))
  {
  }

  lemma GrowsCheck(a: Builder, b: Builder, cond: Operand)
    requires Grows(a, b)
    ensures Grows(a, ReturnIfFails(b, cond))
  {
  }

  // ---------- Reference counts ----------

  /** The count of a value is what it was, plus the references in `owed` that lowering has
      handed out and not yet released; `exact` when nothing was leaked. */
  ghost predicate Owes(a: Builder, b: Builder, owed: multiset<Operand>, exact: bool) {
    && (forall o :: o in a.refs ==> o in b.refs && (a.refs[o] == -1 <==> b.refs[o] == -1))
    && (forall o :: o in b.refs && o !in a.refs ==>
        o.Reg? && o.ty.VariantPtr? && a.next <= o.id < b.next && b.refs[o] >= -1)
    && (forall o :: o in b.refs && b.refs[o] != -1 ==>
          var due := (if o in a.refs then a.refs[o] else 0) + owed[o];
          b.refs[o] >= due && (exact ==> b.refs[o] == due))
    && (forall o :: o in owed ==> o in b.refs)
  }

  /** Every count belongs to a variant in a register already used, no count is below -1, and
      no overridden variable has been released. */
  ghost predicate WellFormed(b: Builder) {
    && Open(b)
    && (forall o :: o in b.refs ==> o.Reg? && o.ty.VariantPtr? && o.id < b.next && b.refs[o] >= -1)
    && (forall x :: x in b.over ==> b.over[x] in b.refs && b.refs[b.over[x]] != 0)
  }

  /** Lowering from a to b with the references in `owed` still to be released. */
  ghost predicate Grown(a: Builder, b: Builder, owed: multiset<Operand>, exact: bool) {
    && Grows(a, b)
    && Owes(a, b, owed, exact)
    && b.over == a.over
    && WellFormed(b)
  }

  /** What is counted stays counted, and what is never released stays so. */
  ghost predicate Steady(b: Builder, c: Builder) {
    forall o :: o in b.refs ==> o in c.refs && (b.refs[o] == -1 <==> c.refs[o] == -1)
  }

  lemma GrownSelf(a: Builder, exact: bool)
    requires WellFormed(a)
    ensures Grown(a, a, multiset{}, exact)
  {
  }

  lemma NothingTwice()
    ensures var none: multiset<Operand> := multiset{}; none + none == none
  {
  }

  lemma OwesTrans(a: Builder, b: Builder, c: Builder, m: multiset<Operand>, n: multiset<Operand>, exact: bool)
    requires Owes(a, b, m, exact) && Owes(b, c, n, exact) && a.next <= b.next <= c.next
    ensures Owes(a, c, m + n, exact)
  {
  }

  lemma GrownTrans(a: Builder, b: Builder, c: Builder, m: multiset<Operand>, n: multiset<Operand>, exact: bool)
    requires Grown(a, b, m, exact) && Grown(b, c, n, exact)
    ensures Grown(a, c, m + n, exact)
  {
    GrowsTrans(a, b, c);
    OwesTrans(a, b, c, m, n, exact);
  }

  lemma GrownEmit(a: Builder, b: Builder, m: multiset<Operand>, exact: bool, n: nat, i: Instr)
    requires Grown(a, b, m, exact)
    ensures Grown(a, Emit(Fresh(b, n), i), m, exact)
    ensures var b' := Emit(Fresh(b, n), i); b'.next == b.next + n && b'.refs == b.refs && b'.meta == b.meta
  {
    GrowsEmit(a, Fresh(b, n), i);
  }

  lemma GrownCheck(a: Builder, b: Builder, m: multiset<Operand>, exact: bool, cond: Operand)
    requires Grown(a, b, m, exact)
    ensures Grown(a, ReturnIfFails(b, cond), m, exact)
    ensures var b' := ReturnIfFails(b, cond); b'.next == b.next && b'.refs == b.refs && b'.meta == b.meta
  {
    GrowsCheck(a, b, cond);
  }

  /** A new value is owed its count. */
  lemma GrownSetRef(a: Builder, b: Builder, m: multiset<Operand>, exact: bool, v: Operand, n: int)
    requires Grown(a, b, m, exact) && v.Reg? && v.ty.VariantPtr? && v !in b.refs && a.next <= v.id < b.next
    requires n == 1 || n == -1
    ensures Grown(a, SetRef(b, v, n), m + multiset{v}, exact)
  {
  }

  lemma GrownNewReference(a: Builder, b: Builder, m: multiset<Operand>, exact: bool, v: Operand)
    requires Grown(a, b, m, exact) && NewReference(b, v).Ok?
    ensures Grown(a, NewReference(b, v).value, m + multiset{v}, exact)
  {
    var c := NewReference(b, v).value;
    assert b.refs[v] >= -1;
    hide Grows, Owes, WellFormed;
    OwesNewReference(a, b, m, exact, v);
    if b.refs[v] != -1 {
      CountedUp(b, v);
      SameBlocksGrow(a, b, NewReference(b, v).value);
    }
    assert Grows(a, c);
    assert WellFormed(c);
    assert c.over == a.over;
  }

  lemma OwesNewReference(a: Builder, b: Builder, m: multiset<Operand>, exact: bool, v: Operand)
    requires Owes(a, b, m, exact) && NewReference(b, v).Ok? && b.refs[v] >= -1
    ensures Owes(a, NewReference(b, v).value, m + multiset{v}, exact)
  {
  }

  lemma CountedUp(b: Builder, v: Operand)
    requires WellFormed(b) && v in b.refs && b.refs[v] != -1
    ensures WellFormed(SetRef(b, v, b.refs[v] + 1))
  {
  }

  lemma OwesWellFormed(a: Builder, b: Builder, m: multiset<Operand>, exact: bool)
    requires WellFormed(a) && Owes(a, b, m, exact) && b.over == a.over && Open(b) && a.next <= b.next
    ensures WellFormed(b)
  {
    forall x | x in b.over
      ensures b.over[x] in b.refs && b.refs[b.over[x]] != 0
    {
      var o := a.over[x];
      assert o in a.refs && (a.refs[o] == -1 || a.refs[o] >= 1);
    }
  }

  lemma SteadyTrans(a: Builder, b: Builder, c: Builder)
    requires Steady(a, b) && Steady(b, c)
    ensures Steady(a, c)
  {
  }

  lemma ReleaseKeeps(b: Builder, v: Operand)
    requires v in b.refs && b.refs[v] != 0
    ensures GoesOutOfScope(b, v).Ok?
    ensures var b' := GoesOutOfScope(b, v).value; b'.next == b.next && b'.meta == b.meta
    ensures forall w :: w in b.refs && w != v ==>
              w in GoesOutOfScope(b, v).value.refs && GoesOutOfScope(b, v).value.refs[w] == b.refs[w]
    ensures Steady(b, GoesOutOfScope(b, v).value)
  {
  }

  lemma OwesRelease(a: Builder, b: Builder, m: multiset<Operand>, exact: bool, v: Operand)
    requires WellFormed(a) && Owes(a, b, m, exact) && v in m
    ensures v in b.refs && (b.refs[v] == -1 || b.refs[v] >= 1)
    ensures b.refs[v] == -1 ==> Owes(a, b, m - multiset{v}, exact)
    ensures b.refs[v] >= 1 ==> Owes(a, SetRef(b, v, b.refs[v] - 1), m - multiset{v}, exact)
  {
    OwedIsCounted(a, b, m, exact, v);
    if b.refs[v] == -1 {
      OwesUncounted(a, b, m, exact, v);
    } else {
      OwesOneLess(a, b, m, exact, v);
    }
  }

  lemma OwedIsCounted(a: Builder, b: Builder, m: multiset<Operand>, exact: bool, v: Operand)
    requires WellFormed(a) && Owes(a, b, m, exact) && v in m
    ensures v in b.refs && (b.refs[v] == -1 || b.refs[v] >= 1)
  {
    assert m[v] >= 1;
  }

  lemma OwesUncounted(a: Builder, b: Builder, m: multiset<Operand>, exact: bool, v: Operand)
    requires Owes(a, b, m, exact) && v in b.refs && b.refs[v] == -1
    ensures Owes(a, b, m - multiset{v}, exact)
  {
  }

  lemma OwesOneLess(a: Builder, b: Builder, m: multiset<Operand>, exact: bool, v: Operand)
    requires Owes(a, b, m, exact) && v in m && v in b.refs && b.refs[v] >= 1
    ensures Owes(a, SetRef(b, v, b.refs[v] - 1), m - multiset{v}, exact)
  {
  }

  lemma GrownDecrement(a: Builder, b: Builder, m: multiset<Operand>, exact: bool, v: Operand)
    requires WellFormed(a) && Grown(a, b, m, exact) && v in m && b.refs[v] != -1
    ensures Grown(a, SetRef(b, v, b.refs[v] - 1), m - multiset{v}, exact)
  {
    OwesRelease(a, b, m, exact, v);
    OwesWellFormed(a, SetRef(b, v, b.refs[v] - 1), m - multiset{v}, exact);
  }

  /** Releasing a reference that is owed; it cannot fail. */
  lemma GrownRelease(a: Builder, b: Builder, m: multiset<Operand>, exact: bool, v: Operand)
    requires WellFormed(a) && Grown(a, b, m, exact) && v in m
    ensures GoesOutOfScope(b, v).Ok?
    ensures Grown(a, GoesOutOfScope(b, v).value, m - multiset{v}, exact)
    ensures var b' := GoesOutOfScope(b, v).value; b'.next == b.next && b'.meta == b.meta
    ensures forall w :: w in b.refs && w != v ==>
              w in GoesOutOfScope(b, v).value.refs && GoesOutOfScope(b, v).value.refs[w] == b.refs[w]
    ensures Steady(b, GoesOutOfScope(b, v).value)
  {
    hide *;
    GrownParts(a, b, m, exact);
    OwesRelease(a, b, m, exact, v);
    ReleaseKeeps(b, v);
    ReleaseIs(b, v);
    if b.refs[v] == -1 {
      OwesLess(a, b, m, m - multiset{v}, exact);
    } else {
      var b' := SetRef(b, v, b.refs[v] - 1);
      GrownDecrement(a, b, m, exact, v);
      GrownEmit(a, b', m - multiset{v}, exact, 0, CallDestruct(v));
    }
  }

  lemma ReleaseIs(b: Builder, v: Operand)
    requires v in b.refs && (b.refs[v] == -1 || b.refs[v] >= 1)
    ensures var b' := SetRef(b, v, b.refs[v] - 1);
            GoesOutOfScope(b, v) == Ok(if b.refs[v] == -1 then b
                                       else if b.refs[v] == 1 then Emit(Fresh(b', 0), CallDestruct(v)) else b')
  {
  }

  lemma OwesLess(a: Builder, b: Builder, m: multiset<Operand>, n: multiset<Operand>, exact: bool)
    requires Grown(a, b, m, exact) && Owes(a, b, n, exact)
    ensures Grown(a, b, n, exact)
  {
  }

  /** A reference that is never released matters only for values that are counted. */
  lemma GrownForget(a: Builder, b: Builder, m: multiset<Operand>, exact: bool, v: Operand)
    requires Grown(a, b, m, exact) && v in m && (exact ==> b.refs[v] == -1)
    ensures Grown(a, b, m - multiset{v}, exact)
  {
  }

  // ---------- Expressions that release what they use ----------

  /** The compiled variant is a temporary that has to be destroyed; `keys` are the variables
      bound to loop keys. */
  predicate CountedExpr(e: Expr, keys: set<string>) {
    match e
    case Var(x) => x in keys
    case Attr(_, _) => false
    case _ => IsVariant(e)
  }

  /** Every temporary the expression creates is released: no argument of a call is itself
      one. */
  predicate Releasable(e: Expr, keys: set<string>) {
    match e
    case Attr(b, _) => Releasable(b, keys)
    case Call(_, args) => ReleasableArgs(args, keys)
    case Bin(_, l, r) => Releasable(l, keys) && Releasable(r, keys)
    case Un(_, s) => Releasable(s, keys)
    case Cmp(_, l, r) => Releasable(l, keys) && Releasable(r, keys)
    case _ => true
  }

  predicate ReleasableArgs(es: seq<Expr>, keys: set<string>) {
    if es == [] then true
    else !CountedExpr(es[0], keys) && Releasable(es[0], keys) && ReleasableArgs(es[1..], keys)
  }

  /** The keys in scope are the overridden variables that are counted. */
  ghost predicate KeysMatch(b: Builder, keys: set<string>) {
    && (forall x :: x in keys ==> x in b.over)
    && (forall x :: x in b.over ==> b.over[x] in b.refs && (b.refs[b.over[x]] != -1 <==> x in keys))
  }

  function OwedFor(v: Operand): multiset<Operand> {
    if IsVariantOperand(v) then multiset{v} else multiset{}
  }

  function OwedForAll(vs: seq<Operand>): multiset<Operand> {
    if vs == [] then multiset{} else OwedFor(vs[0]) + OwedForAll(vs[1..])
  }

  lemma KeysKept(a: Builder, b: Builder, m: multiset<Operand>, exact: bool, keys: set<string>)
    requires Grown(a, b, m, exact) && KeysMatch(a, keys)
    ensures KeysMatch(b, keys)
  {
  }

  // ---------- The bindings ----------

  lemma WrapGrown(a: Builder, b: Builder, m: multiset<Operand>, exact: bool, v: Operand)
    requires WellFormed(a) && Grown(a, b, m + OwedFor(v), exact)
    ensures var w := WrapAsVariant(b, v);
            Grown(a, w.b, m + multiset{w.v}, exact) && w.b.meta == b.meta && IsVariantOperand(w.v) && w.v.Reg?
            && w.b.next >= b.next && (!IsVariantOperand(v) ==> w.b.refs[w.v] == -1)
    ensures Steady(b, WrapAsVariant(b, v).b)
  {
    var w := WrapAsVariant(b, v);
    if !IsVariantOperand(v) {
      assert m + OwedFor(v) == m;
      GrownEmit(a, b, m, exact, 1, CallWrap(b.next, v));
      GrownSetRef(a, Emit(Fresh(b, 1), CallWrap(b.next, v)), m, exact, w.v, -1);
    } else {
      hide Grows, Owes, WellFormed;
      assert w.v in (m + OwedFor(v));
      OwedAreRegisters(a, b, m + OwedFor(v), exact, w.v);
    }
  }

  lemma OwedAreRegisters(a: Builder, b: Builder, m: multiset<Operand>, exact: bool, v: Operand)
    requires Grown(a, b, m, exact) && v in m
    ensures v.Reg? && v.id < b.next && v in b.refs
  {
  }

  lemma WrapBothGrown(a: Builder, b: Builder, m: multiset<Operand>, exact: bool, l: Operand, r: Operand)
    requires WellFormed(a) && Grown(a, b, m + OwedFor(l) + OwedFor(r), exact)
    ensures var w := WrapBoth(b, l, r);
            && Grown(a, w.b, m + multiset{w.l} + multiset{w.r}, exact)
            && w.b.meta == b.meta && w.b.next >= b.next
            && w.l.Reg? && w.l.id < w.b.next && w.r.Reg? && w.r.id < w.b.next
    ensures Steady(b, WrapBoth(b, l, r).b)
  {
    hide Grown, WellFormed, WrapAsVariant, OwedFor, Steady;
    var wl := WrapAsVariant(b, l);
    assert m + OwedFor(l) + OwedFor(r) == m + OwedFor(r) + OwedFor(l);
    WrapGrown(a, b, m + OwedFor(r), exact, l);
    assert m + OwedFor(r) + multiset{wl.v} == m + multiset{wl.v} + OwedFor(r);
    WrapGrown(a, wl.b, m + multiset{wl.v}, exact, r);
    var w := WrapBoth(b, l, r);
    SteadyTrans(b, wl.b, w.b);
    OwedAreRegisters(a, w.b, m + multiset{w.l} + multiset{w.r}, exact, w.l);
    OwedAreRegisters(a, w.b, m + multiset{w.l} + multiset{w.r}, exact, w.r);
  }

  lemma BothReleased(a: Builder, b: Builder, m: multiset<Operand>, exact: bool, l: Operand, r: Operand)
    requires WellFormed(a) && Grown(a, b, m + multiset{l} + multiset{r}, exact)
    ensures BothGoOutOfScope(b, l, r).Ok?
    ensures var b' := BothGoOutOfScope(b, l, r).value;
            && Grown(a, b', m, exact) && b'.meta == b.meta && b'.next == b.next
            && forall w :: w in b.refs && w != l && w != r ==> w in b'.refs && b'.refs[w] == b.refs[w]
    ensures Steady(b, BothGoOutOfScope(b, l, r).value)
  {
    hide Grown, WellFormed, GoesOutOfScope;
    GrownRelease(a, b, m + multiset{l} + multiset{r}, exact, l);
    assert m + multiset{l} + multiset{r} - multiset{l} == m + multiset{r};
    var b1 := GoesOutOfScope(b, l).value;
    GrownRelease(a, b1, m + multiset{r}, exact, r);
    assert m + multiset{r} - multiset{r} == m;
  }

  lemma CheckedCallGrown(a: Builder, b: Builder, m: multiset<Operand>, exact: bool, ok: nat, call: Instr)
    requires Grown(a, b, m, exact)
    ensures var b' := CheckedCall(b, ok, call);
            Grown(a, b', m, exact) && b'.meta == b.meta && b'.refs == b.refs && b'.next == b.next + 2
  {
    hide Grown, Emit, ReturnIfFails;
    GrownEmit(a, b, m, exact, 2, call);
    GrownCheck(a, Emit(Fresh(b, 2), call), m, exact, Reg(ok, I1));
  }

  lemma FreshOperand(a: Builder, b: Builder, m: multiset<Operand>, exact: bool, id: nat)
    requires Grown(a, b, m, exact) && b.next <= id
    ensures Variant(id) !in b.refs && a.next <= b.next
  {
  }

  lemma VariantComparisonGrown(a: Builder, b: Builder, m: multiset<Operand>, exact: bool, op: ComparisonOp, l: Operand,
                               r: Operand)
    requires WellFormed(a) && Grown(a, b, m + OwedFor(l) + OwedFor(r), exact)
    ensures VariantComparison(b, op, l, r).Ok?
    ensures var c := VariantComparison(b, op, l, r).value;
            Grown(a, c.b, m, exact) && c.b.meta == b.meta && c.v.Reg? && c.v.ty.I1? && c.v.id < c.b.next
    ensures Steady(b, VariantComparison(b, op, l, r).value.b)
  {
    hide Grown, WellFormed, WrapBoth, CheckedCall, BothGoOutOfScope;
    var w := WrapBoth(b, l, r);
    WrapBothGrown(a, b, m, exact, l, r);
    var ok, dst := w.b.next, w.b.next + 1;
    var call := CallCompare(ok, dst, op, w.l, w.r);
    CheckedCallGrown(a, w.b, m + multiset{w.l} + multiset{w.r}, exact, ok, call);
    BothReleased(a, CheckedCall(w.b, ok, call), m, exact, w.l, w.r);
  }

  lemma VariantBinaryGrown(a: Builder, b: Builder, m: multiset<Operand>, exact: bool, op: BinaryOp, l: Operand,
                           r: Operand)
    requires WellFormed(a) && Grown(a, b, m + OwedFor(l) + OwedFor(r), exact)
    ensures VariantBinary(b, op, l, r).Ok?
    ensures VariantGrown(a, b, m, exact, VariantBinary(b, op, l, r).value)
    ensures Steady(b, VariantBinary(b, op, l, r).value.b)
  {
    hide Grown, WellFormed, WrapBoth, CheckedCall, BothGoOutOfScope;
    var w := WrapBoth(b, l, r);
    WrapBothGrown(a, b, m, exact, l, r);
    var owed := m + multiset{w.l} + multiset{w.r};
    var ok, dst := w.b.next, w.b.next + 1;
    var call := CallBinary(ok, dst, op, w.l, w.r);
    FreshOperand(a, w.b, owed, exact, dst);
    CheckedCallGrown(a, w.b, owed, exact, ok, call);
    var b1 := CheckedCall(w.b, ok, call);
    GrownSetRef(a, b1, owed, exact, Variant(dst), 1);
    assert owed + multiset{Variant(dst)} == m + multiset{Variant(dst)} + multiset{w.l} + multiset{w.r};
    BothReleased(a, SetRef(b1, Variant(dst), 1), m + multiset{Variant(dst)}, exact, w.l, w.r);
  }

  /** The result of a variant operation is a new temporary to which one reference is owed. */
  ghost predicate VariantGrown(a: Builder, b: Builder, m: multiset<Operand>, exact: bool, c: Computed) {
    && Grown(a, c.b, m + multiset{c.v}, exact)
    && c.b.meta == b.meta
    && c.v.Reg? && c.v.ty.VariantPtr? && c.v.id < c.b.next
    && c.v in c.b.refs && c.b.refs[c.v] == 1
  }

  lemma VariantUnaryGrown(a: Builder, b: Builder, m: multiset<Operand>, exact: bool, op: UnaryOp, v: Operand)
    requires WellFormed(a) && Grown(a, b, m + multiset{v}, exact)
    ensures VariantUnary(b, op, v).Ok?
    ensures VariantGrown(a, b, m, exact, VariantUnary(b, op, v).value)
    ensures Steady(b, VariantUnary(b, op, v).value.b)
  {
    hide Grown, WellFormed, CheckedCall, GoesOutOfScope;
    var owed := m + multiset{v};
    var ok, dst := b.next, b.next + 1;
    var call := CallUnary(ok, dst, op, v);
    OwedAreRegisters(a, b, owed, exact, v);
    FreshOperand(a, b, owed, exact, dst);
    CheckedCallGrown(a, b, owed, exact, ok, call);
    var b1 := CheckedCall(b, ok, call);
    GrownSetRef(a, b1, owed, exact, Variant(dst), 1);
    GrownRelease(a, SetRef(b1, Variant(dst), 1), owed + multiset{Variant(dst)}, exact, v);
    assert owed + multiset{Variant(dst)} - multiset{v} == m + multiset{Variant(dst)};
  }

  lemma VariableLookupGrown(a: Builder, b: Builder, m: multiset<Operand>, exact: bool, name: string)
    requires Grown(a, b, m, exact)
    ensures var c := VariableLookup(b, name);
            Grown(a, c.b, m + multiset{c.v}, exact) && c.b.meta == b.meta && c.b.refs[c.v] == -1
  {
    hide Grown;
    FreshOperand(a, b, m, exact, b.next);
    GrownEmit(a, b, m, exact, 1, CallLookup(b.next, name));
    GrownSetRef(a, Emit(Fresh(b, 1), CallLookup(b.next, name)), m, exact, Variant(b.next), -1);
  }

  lemma AttributeLookupGrown(a: Builder, b: Builder, m: multiset<Operand>, exact: bool, name: string, base: Operand)
    requires WellFormed(a) && Grown(a, b, m + multiset{base}, exact)
    ensures AttributeLookup(b, name, base).Ok?
    ensures var c := AttributeLookup(b, name, base).value;
            Grown(a, c.b, m + multiset{c.v}, exact) && c.b.meta == b.meta && c.v == Variant(b.next)
              && c.b.refs[c.v] == -1
            && c.v.id < c.b.next
    ensures Steady(b, AttributeLookup(b, name, base).value.b)
  {
    hide Grown, WellFormed;
    var owed, v := m + multiset{base}, Variant(b.next);
    FreshOperand(a, b, owed, exact, b.next);
    OwedAreRegisters(a, b, owed, exact, base);
    var call := CallAttribute(b.next, base, name);
    GrownEmit(a, b, owed, exact, 1, call);
    GrownSetRef(a, Emit(Fresh(b, 1), call), owed, exact, v, -1);
    GrownRelease(a, SetRef(Emit(Fresh(b, 1), call), v, -1), owed + multiset{v}, exact, base);
    assert owed + multiset{v} - multiset{base} == m + multiset{v};
  }

  lemma {:induction false} WrapAllGrown(a: Builder, b: Builder, m: multiset<Operand>, exact: bool, vs: seq<Operand>)
    requires WellFormed(a) && Grown(a, b, m + OwedForAll(vs), exact)
    requires exact ==> forall v :: v in vs && IsVariantOperand(v) && v in b.refs ==> b.refs[v] == -1
    ensures var ws := WrapAll(b, vs); Grown(a, ws.b, m, exact) && ws.b.meta == b.meta
    ensures Steady(b, WrapAll(b, vs).b)
    decreases vs
  {
    hide Grown, WellFormed;
    if vs == [] {
      assert m + OwedForAll(vs) == m;
    } else {
      var rest := OwedForAll(vs[1..]);
      var w := WrapAsVariant(b, vs[0]);
      assert m + OwedForAll(vs) == m + rest + OwedFor(vs[0]);
      WrapGrown(a, b, m + rest, exact, vs[0]);
      OwedAreRegisters(a, w.b, m + rest + multiset{w.v}, exact, w.v);
      GrownForget(a, w.b, m + rest + multiset{w.v}, exact, w.v);
      assert m + rest + multiset{w.v} - multiset{w.v} == m + rest;
      WrapAllGrown(a, w.b, m, exact, vs[1..]);
    }
  }

  lemma MethodCallGrown(a: Builder, b: Builder, m: multiset<Operand>, exact: bool, name: string, vs: seq<Operand>)
    requires WellFormed(a) && Grown(a, b, m + OwedForAll(vs), exact)
    requires exact ==> forall v :: v in vs && IsVariantOperand(v) && v in b.refs ==> b.refs[v] == -1
    ensures MethodCall(b, name, vs).Ok?
    ensures VariantGrown(a, b, m, exact, MethodCall(b, name, vs).value)
    ensures Steady(b, MethodCall(b, name, vs).value.b)
  {
    hide Grown, WellFormed, WrapAll, Emit, ReturnIfFails;
    WrapAllGrown(a, b, m, exact, vs);
    var ws := WrapAll(b, vs);
    var dst, ok := ws.b.next, ws.b.next + 1;
    var call := CallMethod(dst, name, ws.vs);
    FreshOperand(a, ws.b, m, exact, dst);
    GrownEmit(a, ws.b, m, exact, 2, call);
    GrownSetRef(a, Emit(Fresh(ws.b, 2), call), m, exact, Variant(dst), 1);
    var b1 := SetRef(Emit(Fresh(ws.b, 2), call), Variant(dst), 1);
    var owed := m + multiset{Variant(dst)};
    GrownEmit(a, b1, owed, exact, 0, NotNull(ok, dst));
    GrownCheck(a, Emit(b1, NotNull(ok, dst)), owed, exact, Reg(ok, I1));
  }

  // ---------- Native operations ----------

  /** The register of a native result has been reserved. */
  predicate OperandBelow(v: Operand, next: nat) {
    v.Reg? ==> v.id < next
  }

  lemma ConvertGrown(a: Builder, b: Builder, m: multiset<Operand>, exact: bool, v: Operand)
    requires Grown(a, b, m, exact) && Convert(b, v).Ok? && OperandBelow(v, b.next)
    ensures var c := Convert(b, v).value;
            Grown(a, c.b, m, exact) && c.b.meta == b.meta && OperandBelow(c.v, c.b.next) && TypeOfOperand(c.v).DoubleTy?
            && b.next <= c.b.next
  {
    GrownEmit(a, b, m, exact, 1, SIToFP(b.next, v));
  }

  lemma NativeBinaryGrown(a: Builder, b: Builder, m: multiset<Operand>, exact: bool, op: BinaryOp, l: Operand,
                          r: Operand)
    requires Grown(a, b, m, exact) && NativeBinaryOp(b, op, l, r).Ok? && OperandBelow(l, b.next)
    requires OperandBelow(r, b.next)
    ensures var c := NativeBinaryOp(b, op, l, r).value;
            Grown(a, c.b, m, exact) && c.b.meta == b.meta && OperandBelow(c.v, c.b.next) && !IsVariantOperand(c.v)
    ensures NativeBinaryOp(b, op, l, r).value.b.refs == b.refs
  {
    hide Grown;
    if IsIntegerOperand(l) && IsIntegerOperand(r) {
      GrownEmit(a, b, m, exact, 1, IntOp(b.next, op, l, r));
    } else {
      ConvertGrown(a, b, m, exact, l);
      var cl := Convert(b, l).value;
      ConvertGrown(a, cl.b, m, exact, r);
      var cr := Convert(cl.b, r).value;
      GrownEmit(a, cr.b, m, exact, 1, FloatOp(cr.b.next, op, cl.v, cr.v));
    }
  }

  lemma NativeUnaryGrown(a: Builder, b: Builder, m: multiset<Operand>, exact: bool, op: UnaryOp, v: Operand)
    requires Grown(a, b, m, exact) && NativeUnaryOp(b, op, v).Ok? && OperandBelow(v, b.next) && !IsVariantOperand(v)
    ensures var c := NativeUnaryOp(b, op, v).value;
            Grown(a, c.b, m, exact) && c.b.meta == b.meta && OperandBelow(c.v, c.b.next) && !IsVariantOperand(c.v)
    ensures NativeUnaryOp(b, op, v).value.b.refs == b.refs
  {
    hide Grown;
    GrownEmit(a, b, m, exact, 1, if op.NumericNegative? then Neg(b.next, v) else Not(b.next, v));
  }

  lemma NativeComparisonGrown(a: Builder, b: Builder, m: multiset<Operand>, exact: bool, op: ComparisonOp, l: Operand,
                              r: Operand)
    requires Grown(a, b, m, exact) && NativeComparison(b, op, l, r).Ok? && OperandBelow(l, b.next)
    requires OperandBelow(r, b.next)
    ensures var c := NativeComparison(b, op, l, r).value;
            Grown(a, c.b, m, exact) && c.b.meta == b.meta && OperandBelow(c.v, c.b.next) && !IsVariantOperand(c.v)
    ensures NativeComparison(b, op, l, r).value.b.refs == b.refs
  {
    hide Grown;
    if IsIntegerOperand(l) && IsIntegerOperand(r) {
      GrownEmit(a, b, m, exact, 1, if IsLogical(op) then Logic(b.next, op, l, r) else ICmp(b.next, op, l, r));
    } else {
      ConvertGrown(a, b, m, exact, l);
      var cl := Convert(b, l).value;
      ConvertGrown(a, cl.b, m, exact, r);
      var cr := Convert(cl.b, r).value;
      GrownEmit(a, cr.b, m, exact, 1, FCmp(cr.b.next, op, cl.v, cr.v));
    }
  }

  // ---------- Expressions ----------

  /** What lowering an expression guarantees about its result c: one owed reference on the
      operand if it is a variant, and nothing else changed for earlier values. */
  ghost predicate ExprGrown(b: Builder, c: Computed, e: Expr, keys: set<string>, exact: bool) {
    && Grown(b, c.b, OwedFor(c.v), exact)
    && c.b.meta == b.meta
    && OperandBelow(c.v, c.b.next)
    && IsVariantOperand(c.v) == IsVariant(e)
    && (IsVariantOperand(c.v) ==>
        c.v.Reg? && c.v in c.b.refs && (exact ==> (c.b.refs[c.v] != -1 <==> CountedExpr(e, keys))))
  }

  ghost predicate Balanced(b: Builder, e: Expr, keys: set<string>, exact: bool) {
    exact ==> Releasable(e, keys) && KeysMatch(b, keys)
  }

  lemma OwedForVariant(v: Operand)
    requires IsVariantOperand(v)
    ensures multiset{} + multiset{v} == OwedFor(v) == multiset{v}
  {
  }

  lemma {:induction false} LowerExprGrown(b: Builder, e: Expr, keys: set<string>, exact: bool)
    requires WellFormed(b) && LowerExpr(b, e).Ok? && Balanced(b, e, keys, exact)
    ensures ExprGrown(b, LowerExpr(b, e).value, e, keys, exact)
    decreases e
  {
    hide ExprGrown, WellFormed, KeysMatch;
    match e
    case Var(x) => VariableGrown(b, x, keys, exact);
    case Attr(base, n) =>
      LowerExprGrown(b, base, keys, exact);
      AttributeGrown(b, base, n, keys, exact);
    case Call(m, args) =>
      LowerExprsGrown(b, args, keys, exact);
      CallGrown(b, m, args, keys, exact);
    case Bin(op, l, r) =>
      var cl := LowerExpr(b, l).value;
      LowerExprGrown(b, l, keys, exact);
      ThenBalanced(b, cl, l, r, keys, exact);
      LowerExprGrown(cl.b, r, keys, exact);
      var cr := LowerExpr(cl.b, r).value;
      assert LowerExpr(b, e) == BinResult(cr.b, op, cl.v, cr.v);
      BinaryGrown(b, op, l, r, cl, cr, keys, exact);
    case Un(op, s) =>
      LowerExprGrown(b, s, keys, exact);
      var c := LowerExpr(b, s).value;
      assert LowerExpr(b, e) == UnResult(c.b, op, c.v);
      UnaryGrown(b, op, s, c, keys, exact);
    case Cmp(op, l, r) =>
      var cl := LowerExpr(b, l).value;
      LowerExprGrown(b, l, keys, exact);
      ThenBalanced(b, cl, l, r, keys, exact);
      LowerExprGrown(cl.b, r, keys, exact);
      var cr := LowerExpr(cl.b, r).value;
      assert LowerExpr(b, e) == CmpResult(cr.b, op, cl.v, cr.v);
      ComparisonGrown(b, op, l, r, cl, cr, keys, exact);
    case DoubleLit(_) => LiteralGrown(b, e, keys, exact);
    case IntLit(_) => LiteralGrown(b, e, keys, exact);
    case BoolLit(_) => LiteralGrown(b, e, keys, exact);
    case StrLit(_) => LiteralGrown(b, e, keys, exact);
  }

  lemma LiteralGrown(b: Builder, e: Expr, keys: set<string>, exact: bool)
    requires WellFormed(b) && IsLiteral(e)
    ensures LowerExpr(b, e).Ok? && ExprGrown(b, LowerExpr(b, e).value, e, keys, exact)
  {
    GrownSelf(b, exact);
  }

  lemma ThenBalanced(b: Builder, c: Computed, l: Expr, r: Expr, keys: set<string>, exact: bool)
    requires ExprGrown(b, c, l, keys, exact)
    requires exact ==> Releasable(r, keys) && KeysMatch(b, keys)
    ensures WellFormed(c.b) && Balanced(c.b, r, keys, exact)
  {
    if exact {
      KeysKept(b, c.b, OwedFor(c.v), exact, keys);
    }
  }

  lemma VariableGrown(b: Builder, x: string, keys: set<string>, exact: bool)
    requires WellFormed(b) && LowerExpr(b, Var(x)).Ok? && Balanced(b, Var(x), keys, exact)
    ensures ExprGrown(b, LowerExpr(b, Var(x)).value, Var(x), keys, exact)
  {
    GrownSelf(b, exact);
    if x in b.over {
      GrownNewReference(b, b, multiset{}, exact, b.over[x]);
    } else {
      VariableLookupGrown(b, b, multiset{}, exact, x);
    }
    OwedForVariant(LowerExpr(b, Var(x)).value.v);
  }

  lemma AttributeGrown(b: Builder, base: Expr, n: string, keys: set<string>, exact: bool)
    requires WellFormed(b) && LowerExpr(b, base).Ok? && LowerExpr(b, Attr(base, n)).Ok?
    requires ExprGrown(b, LowerExpr(b, base).value, base, keys, exact)
    ensures ExprGrown(b, LowerExpr(b, Attr(base, n)).value, Attr(base, n), keys, exact)
  {
    hide Grown, WellFormed, LowerExpr;
    var c := LowerExpr(b, base).value;
    AttributeUnfolds(b, base, n);
    var c' := AttributeLookup(c.b, n, c.v).value;
    if !IsVariantOperand(c.v) {
      NonVariantUncounted(b, c.b, OwedFor(c.v), exact, c.v);
      assert false;
    }
    OwedForVariant(c.v);
    AttributeLookupGrown(b, c.b, multiset{}, exact, n, c.v);
    OwedForVariant(c'.v);
  }

  lemma AttributeUnfolds(b: Builder, base: Expr, n: string)
    requires LowerExpr(b, base).Ok?
    ensures LowerExpr(b, Attr(base, n)) == AttributeLookup(LowerExpr(b, base).value.b, n, LowerExpr(b, base).value.v)
  {
  }

  /** Releasing something that is not a variant throws. */
  lemma NonVariantUncounted(a: Builder, b: Builder, m: multiset<Operand>, exact: bool, v: Operand)
    requires WellFormed(a) && Grown(a, b, m, exact) && !IsVariantOperand(v)
    ensures forall name :: AttributeLookup(b, name, v).Err?
  {
  }

  /** The operation on two computed operands. */
  function BinResult(b: Builder, op: BinaryOp, l: Operand, r: Operand): Lowered {
    if IsVariantOperand(l) || IsVariantOperand(r) then VariantBinary(b, op, l, r) else NativeBinaryOp(b, op, l, r)
  }

  lemma BinaryGrown(b: Builder, op: BinaryOp, l: Expr, r: Expr, cl: Computed, cr: Computed, keys: set<string>,
                    exact: bool)
    requires WellFormed(b) && ExprGrown(b, cl, l, keys, exact) && ExprGrown(cl.b, cr, r, keys, exact)
    requires BinResult(cr.b, op, cl.v, cr.v).Ok?
    ensures ExprGrown(b, BinResult(cr.b, op, cl.v, cr.v).value, Bin(op, l, r), keys, exact)
  {
    hide *;
    PairParts(b, l, r, cl, cr, keys, exact);
    PairGrown(b, cl, cr, exact);
    BinIs(cr.b, op, cl.v, cr.v);
    BinKinds(op, l, r, keys);
    if IsVariantOperand(cl.v) || IsVariantOperand(cr.v) {
      VariantBinaryResultGrown(b, cr.b, op, cl.v, cr.v, exact);
    } else {
      NativeBinaryGrown(b, cr.b, multiset{}, exact, op, cl.v, cr.v);
    }
    IsExprGrown(b, BinResult(cr.b, op, cl.v, cr.v).value, Bin(op, l, r), keys, exact);
  }

  lemma BinIs(b: Builder, op: BinaryOp, l: Operand, r: Operand)
    ensures BinResult(b, op, l, r)
            == if IsVariantOperand(l) || IsVariantOperand(r) then VariantBinary(b, op, l, r)
               else NativeBinaryOp(b, op, l, r)
  {
    hide VariantBinary, NativeBinaryOp;
  }

  lemma CmpIs(b: Builder, op: ComparisonOp, l: Operand, r: Operand)
    ensures CmpResult(b, op, l, r)
            == if IsVariantOperand(l) || IsVariantOperand(r) then VariantComparison(b, op, l, r)
               else NativeComparison(b, op, l, r)
  {
    hide VariantComparison, NativeComparison;
  }

  lemma BinKinds(op: BinaryOp, l: Expr, r: Expr, keys: set<string>)
    ensures IsVariant(Bin(op, l, r)) == (IsVariant(l) || IsVariant(r)) == CountedExpr(Bin(op, l, r), keys)
  {
  }

  lemma CmpKinds(op: ComparisonOp, l: Expr, r: Expr)
    ensures !IsVariant(Cmp(op, l, r))
  {
  }

  /** What is known of both operands of an operation. */
  lemma PairParts(b: Builder, l: Expr, r: Expr, cl: Computed, cr: Computed, keys: set<string>, exact: bool)
    requires ExprGrown(b, cl, l, keys, exact) && ExprGrown(cl.b, cr, r, keys, exact)
    ensures Grown(b, cl.b, OwedFor(cl.v), exact) && Grown(cl.b, cr.b, OwedFor(cr.v), exact) && cr.b.meta == b.meta
    ensures OperandBelow(cl.v, cl.b.next) && OperandBelow(cr.v, cr.b.next)
    ensures IsVariantOperand(cl.v) == IsVariant(l) && IsVariantOperand(cr.v) == IsVariant(r)
  {
    hide Grown, OwedFor, OperandBelow, IsVariant, IsVariantOperand;
  }

  lemma IsExprGrown(b: Builder, c: Computed, e: Expr, keys: set<string>, exact: bool)
    requires (Grown(b, c.b, OwedFor(c.v), exact) || (!IsVariantOperand(c.v) && Grown(b, c.b, multiset{}, exact)))
    requires c.b.meta == b.meta
    requires OperandBelow(c.v, c.b.next) || (c.v.Reg? && c.v.id < c.b.next)
    requires IsVariant(e) ==>
                 c.v.Reg? && c.v.ty.VariantPtr? && c.v in c.b.refs && c.b.refs[c.v] == 1 && CountedExpr(e, keys)
    requires !IsVariant(e) ==> !IsVariantOperand(c.v) || (c.v.Reg? && c.v.ty.I1?)
    ensures ExprGrown(b, c, e, keys, exact)
  {
    hide Grown, IsVariant, CountedExpr;
  }

  lemma VariantBinaryResultGrown(a: Builder, b: Builder, op: BinaryOp, l: Operand, r: Operand, exact: bool)
    requires WellFormed(a) && Grown(a, b, OwedForPair(l, r), exact)
    ensures VariantBinary(b, op, l, r).Ok?
    ensures var c := VariantBinary(b, op, l, r).value;
            && Grown(a, c.b, OwedFor(c.v), exact)
            && c.b.meta == b.meta
            && c.v.Reg? && c.v.ty.VariantPtr? && c.v.id < c.b.next
            && c.v in c.b.refs && c.b.refs[c.v] == 1
  {
    hide Grown, WellFormed, VariantBinary;
    VariantBinaryGrown(a, b, multiset{}, exact, op, l, r);
    OwedForVariant(VariantBinary(b, op, l, r).value.v);
  }

  function OwedForPair(l: Operand, r: Operand): multiset<Operand> {
    multiset{} + OwedFor(l) + OwedFor(r)
  }

  lemma PairGrown(b: Builder, cl: Computed, cr: Computed, exact: bool)
    requires Grown(b, cl.b, OwedFor(cl.v), exact) && Grown(cl.b, cr.b, OwedFor(cr.v), exact)
    requires OperandBelow(cl.v, cl.b.next)
    ensures Grown(b, cr.b, OwedForPair(cl.v, cr.v), exact) && OperandBelow(cl.v, cr.b.next)
    ensures !IsVariantOperand(cl.v) && !IsVariantOperand(cr.v) ==> Grown(b, cr.b, multiset{}, exact)
  {
    GrownTrans(b, cl.b, cr.b, OwedFor(cl.v), OwedFor(cr.v), exact);
    assert OwedFor(cl.v) + OwedFor(cr.v) == OwedForPair(cl.v, cr.v);
  }

  /** The operation on two computed operands. */
  function CmpResult(b: Builder, op: ComparisonOp, l: Operand, r: Operand): Lowered {
    if IsVariantOperand(l) || IsVariantOperand(r) then VariantComparison(b, op, l, r) else NativeComparison(b, op, l, r)
  }

  lemma ComparisonGrown(b: Builder, op: ComparisonOp, l: Expr, r: Expr, cl: Computed, cr: Computed, keys: set<string>,
                        exact: bool)
    requires WellFormed(b) && ExprGrown(b, cl, l, keys, exact) && ExprGrown(cl.b, cr, r, keys, exact)
    requires CmpResult(cr.b, op, cl.v, cr.v).Ok?
    ensures ExprGrown(b, CmpResult(cr.b, op, cl.v, cr.v).value, Cmp(op, l, r), keys, exact)
  {
    hide *;
    PairParts(b, l, r, cl, cr, keys, exact);
    PairGrown(b, cl, cr, exact);
    CmpIs(cr.b, op, cl.v, cr.v);
    CmpKinds(op, l, r);
    if IsVariantOperand(cl.v) || IsVariantOperand(cr.v) {
      VariantComparisonResultGrown(b, cr.b, op, cl.v, cr.v, exact);
    } else {
      NativeComparisonGrown(b, cr.b, multiset{}, exact, op, cl.v, cr.v);
    }
    IsExprGrown(b, CmpResult(cr.b, op, cl.v, cr.v).value, Cmp(op, l, r), keys, exact);
  }

  lemma VariantComparisonResultGrown(a: Builder, b: Builder, op: ComparisonOp, l: Operand, r: Operand, exact: bool)
    requires WellFormed(a) && Grown(a, b, OwedForPair(l, r), exact)
    ensures VariantComparison(b, op, l, r).Ok?
    ensures var c := VariantComparison(b, op, l, r).value;
            Grown(a, c.b, OwedFor(c.v), exact) && c.b.meta == b.meta && c.v.Reg? && c.v.ty.I1? && c.v.id < c.b.next
  {
    hide Grown, WellFormed, VariantComparison;
    VariantComparisonGrown(a, b, multiset{}, exact, op, l, r);
  }

  function UnResult(b: Builder, op: UnaryOp, v: Operand): Lowered {
    if IsVariantOperand(v) then VariantUnary(b, op, v) else NativeUnaryOp(b, op, v)
  }

  lemma UnaryGrown(b: Builder, op: UnaryOp, s: Expr, c: Computed, keys: set<string>, exact: bool)
    requires WellFormed(b) && ExprGrown(b, c, s, keys, exact) && UnResult(c.b, op, c.v).Ok?
    ensures ExprGrown(b, UnResult(c.b, op, c.v).value, Un(op, s), keys, exact)
  {
    hide Grown, WellFormed, VariantUnary, NativeUnaryOp;
    if IsVariantOperand(c.v) {
      OwedForVariant(c.v);
      VariantUnaryGrown(b, c.b, multiset{}, exact, op, c.v);
      OwedForVariant(VariantUnary(c.b, op, c.v).value.v);
    } else {
      NativeUnaryGrown(b, c.b, multiset{}, exact, op, c.v);
    }
  }

  ghost predicate ArgsGrown(b: Builder, c: Arguments, exact: bool) {
    && Grown(b, c.b, OwedForAll(c.vs), exact)
    && c.b.meta == b.meta
    && (exact ==> forall v :: v in c.vs && IsVariantOperand(v) ==> v in c.b.refs && c.b.refs[v] == -1)
  }

  lemma {:induction false} LowerExprsGrown(b: Builder, es: seq<Expr>, keys: set<string>, exact: bool)
    requires WellFormed(b) && LowerExprs(b, es).Ok?
    requires exact ==> ReleasableArgs(es, keys) && KeysMatch(b, keys)
    ensures ArgsGrown(b, LowerExprs(b, es).value, exact)
    decreases es
  {
    if es == [] {
      GrownSelf(b, exact);
    } else {
      var c := LowerExpr(b, es[0]).value;
      LowerExprGrown(b, es[0], keys, exact);
      if exact {
        KeysKept(b, c.b, OwedFor(c.v), exact, keys);
      }
      LowerExprsGrown(c.b, es[1..], keys, exact);
      var cs := LowerExprs(c.b, es[1..]).value;
      ArgsStep(b, c, cs, exact);
    }
  }

  lemma ArgsStep(b: Builder, c: Computed, cs: Arguments, exact: bool)
    requires Grown(b, c.b, OwedFor(c.v), exact) && c.b.meta == b.meta && ArgsGrown(c.b, cs, exact)
    requires exact && IsVariantOperand(c.v) ==> c.v in c.b.refs && c.b.refs[c.v] == -1
    ensures ArgsGrown(b, Arguments([c.v] + cs.vs, cs.b), exact)
  {
    hide Grows, WellFormed;
    GrownTrans(b, c.b, cs.b, OwedFor(c.v), OwedForAll(cs.vs), exact);
    assert ([c.v] + cs.vs)[1..] == cs.vs;
  }

  lemma CallGrown(b: Builder, m: string, args: seq<Expr>, keys: set<string>, exact: bool)
    requires WellFormed(b) && LowerExpr(b, Call(m, args)).Ok?
    requires ArgsGrown(b, LowerExprs(b, args).value, exact)
    ensures ExprGrown(b, LowerExpr(b, Call(m, args)).value, Call(m, args), keys, exact)
  {
    hide Grown, WellFormed;
    var c := LowerExprs(b, args).value;
    assert multiset{} + OwedForAll(c.vs) == OwedForAll(c.vs);
    MethodCallGrown(b, c.b, multiset{}, exact, m, c.vs);
    var r := MethodCall(c.b, m, c.vs).value;
    OwedForVariant(r.v);
    OwedAreRegisters(b, r.b, multiset{} + multiset{r.v}, exact, r.v);
  }

  // ---------- Statements ----------

  /** Every temporary the statement creates is released on every run that does not fail; the
      key of a loop is a temporary in its body, unless the value has the same name. */
  predicate ReleasableStmt(t: AST, keys: set<string>) {
    match t
    case Statements(l) => ReleasableStmts(l, keys)
    case Raw(_) => true
    case Print(e) => Releasable(e, keys)
    case If(c, a, b) => Releasable(c, keys) && ReleasableStmt(a, keys) && ReleasableOpt(b, keys)
    case For(k, v, it, a, b) =>
      Releasable(it, keys) && ReleasableStmt(a, BodyKeys(k, v, keys)) && ReleasableOpt(b, keys)
    case Include(_, _, _) => true
  }

  predicate ReleasableOpt(o: Option<AST>, keys: set<string>) {
    match o
    case None => true
    case Some(t) => ReleasableStmt(t, keys)
  }

  predicate ReleasableStmts(l: seq<AST>, keys: set<string>) {
    if l == [] then true else ReleasableStmt(l[0], keys) && ReleasableStmts(l[1..], keys)
  }

  function BodyKeys(k: Option<string>, v: Option<string>, keys: set<string>): set<string> {
    keys + (if k.Some? then {k.value} else {}) - (if v.Some? then {v.value} else {})
  }

  /** Loops that are still active keep their metadata or lose it; none is changed. */
  predicate MetaLe(a: map<Operand, Meta>, b: map<Operand, Meta>) {
    forall o :: o in a ==> o in b && a[o] == b[o]
  }

  /** What lowering a statement guarantees: earlier counts unchanged (if nothing is leaked),
      the overridden variables restored, and only the open block moved. */
  ghost predicate StmtGrown(a: Builder, b: Builder, exact: bool) {
    Grown(a, b, multiset{}, exact) && MetaLe(b.meta, a.meta)
  }

  lemma StmtGrownTrans(a: Builder, b: Builder, c: Builder, exact: bool)
    requires StmtGrown(a, b, exact) && StmtGrown(b, c, exact)
    ensures StmtGrown(a, c, exact)
  {
    hide Grown;
    GrownTrans(a, b, c, multiset{}, multiset{}, exact);
    NothingTwice();
  }

  ghost predicate BalancedStmt(b: Builder, t: AST, keys: set<string>, exact: bool) {
    exact ==> ReleasableStmt(t, keys) && KeysMatch(b, keys)
  }

  lemma KeysKeptByStmt(a: Builder, b: Builder, exact: bool, keys: set<string>)
    requires StmtGrown(a, b, exact) && KeysMatch(a, keys)
    ensures KeysMatch(b, keys)
  {
    KeysKept(a, b, multiset{}, exact, keys);
  }

  lemma {:induction false} LowerStmtGrown(b: Builder, t: AST, keys: set<string>, exact: bool)
    requires WellFormed(b) && LowerStmt(b, t).Ok? && BalancedStmt(b, t, keys, exact)
    ensures StmtGrown(b, LowerStmt(b, t).value, exact)
    decreases t, 1
  {
    hide StmtGrown, WellFormed, KeysMatch;
    match t
    case Statements(l) => LowerStmtsGrown(b, l, keys, exact);
    case Raw(text) => RawGrown(b, CallPrint(ConstString(text)), exact);
    case Print(e) => PrintGrown(b, e, keys, exact);
    case If(c, a, els) => IfGrown(b, c, a, els, keys, exact);
    case For(k, v, it, a, els) => ForGrown(b, k, v, it, a, els, keys, exact);
  }

  lemma {:induction false} LowerOptGrown(b: Builder, o: Option<AST>, keys: set<string>, exact: bool)
    requires WellFormed(b) && LowerOpt(b, o).Ok? && (exact ==> ReleasableOpt(o, keys) && KeysMatch(b, keys))
    ensures StmtGrown(b, LowerOpt(b, o).value, exact)
    decreases o, 0
  {
    if o.Some? {
      LowerStmtGrown(b, o.value, keys, exact);
    } else {
      GrownSelf(b, exact);
    }
  }

  lemma {:induction false} LowerStmtsGrown(b: Builder, l: seq<AST>, keys: set<string>, exact: bool)
    requires WellFormed(b) && LowerStmts(b, l).Ok? && (exact ==> ReleasableStmts(l, keys) && KeysMatch(b, keys))
    ensures StmtGrown(b, LowerStmts(b, l).value, exact)
    decreases l, 0
  {
    if l == [] {
      GrownSelf(b, exact);
    } else {
      hide KeysMatch, Grown;
      var b' := LowerStmt(b, l[0]).value;
      LowerStmtGrown(b, l[0], keys, exact);
      GrownIsWellFormed(b, b', multiset{}, exact);
      if exact {
        KeysKeptByStmt(b, b', exact, keys);
      }
      LowerStmtsGrown(b', l[1..], keys, exact);
      StmtGrownTrans(b, b', LowerStmts(b', l[1..]).value, exact);
    }
  }

  lemma GrownIsWellFormed(a: Builder, b: Builder, m: multiset<Operand>, exact: bool)
    requires Grown(a, b, m, exact)
    ensures WellFormed(b) && Open(b) && b.over == a.over
  {
  }

  lemma RawGrown(b: Builder, i: Instr, exact: bool)
    requires WellFormed(b)
    ensures StmtGrown(b, Emit(b, i), exact)
  {
    GrownSelf(b, exact);
    GrownEmit(b, b, multiset{}, exact, 0, i);
  }

  lemma PrintGrown(b: Builder, e: Expr, keys: set<string>, exact: bool)
    requires WellFormed(b) && LowerStmt(b, Print(e)).Ok? && Balanced(b, e, keys, exact)
    ensures StmtGrown(b, LowerStmt(b, Print(e)).value, exact)
  {
    hide Grown, WellFormed, LowerExpr, GoesOutOfScope, Emit;
    LowerExprGrown(b, e, keys, exact);
    var c := LowerExpr(b, e).value;
    GrownEmit(b, c.b, OwedFor(c.v), exact, 0, CallPrint(c.v));
    assert Fresh(c.b, 0) == c.b;
    if IsVariantOperand(c.v) {
      GrownRelease(b, Emit(c.b, CallPrint(c.v)), multiset{c.v}, exact, c.v);
      assert multiset{c.v} - multiset{c.v} == multiset{};
    }
  }

  // ---------- Conditionals ----------

  lemma IfGrows(a: Builder, cond: Operand, b1: Builder, b2: Builder)
    requires Open(a) && Grows(IfStart(a, cond), b1)
    requires |a.blocks| + 2 < |b1.blocks| && Grows(IfElse(b1, |a.blocks|), b2)
    ensures |a.blocks| + 2 < |b2.blocks| && Grows(a, IfEnd(b2, |a.blocks|))
  {
    var n := |a.blocks|;
    var s, e, f := IfStart(a, cond), IfElse(b1, n), IfEnd(b2, n);
    assert s.blocks[n + 1] == s.blocks[n + 2] == EMPTY_BLOCK;
    assert b1.blocks[n + 1] == b1.blocks[n + 2] == EMPTY_BLOCK;
    assert e.blocks[n + 2] == EMPTY_BLOCK && b2.blocks[n + 2] == EMPTY_BLOCK;
    forall i | n <= i < |f.blocks| && i != n + 2
      ensures f.blocks[i].term.Some?
    {
      if i < |b1.blocks| && i != n + 1 {
        assert e.blocks[i].term.Some?;
      }
    }
  }

  lemma IfGrown(b: Builder, cond: Expr, a: AST, els: Option<AST>, keys: set<string>, exact: bool)
    requires WellFormed(b) && LowerStmt(b, If(cond, a, els)).Ok?
    requires BalancedStmt(b, If(cond, a, els), keys, exact)
    ensures StmtGrown(b, LowerStmt(b, If(cond, a, els)).value, exact)
    decreases If(cond, a, els), 0
  {
    hide *;
    BalancedIf(b, cond, a, els, keys, exact);
    var c, s, b1, e, b2 := IfUnfolds(b, cond, a, els);
    LowerExprGrown(b, cond, keys, exact);
    ExprGrownParts(b, c, cond, keys, exact);
    assert OwedFor(c.v) == multiset{} by { ConditionOwesNothing(c.v); }
    if exact { KeysKept(b, c.b, multiset{}, exact, keys); }
    IfStartKeeps(c.b, c.v);
    SameRefs(c.b, s, exact, keys);
    IsBalanced(s, a, keys, exact);
    LowerStmtGrown(s, a, keys, exact);
    StmtGrownParts(s, b1, exact);
    if exact { KeysKeptByStmt(s, b1, exact, keys); }
    WellFormedOpen(c.b);
    IfElseOpen(c.b, c.v, b1);
    SameRefs(b1, e, exact, keys);
    LowerOptGrown(e, els, keys, exact);
    StmtGrownParts(e, b2, exact);
    IfGrows(c.b, c.v, b1, b2);
    IfEndKeeps(b2, |c.b.blocks|);
    IfOwes(b, c.b, s, b1, e, b2, IfEnd(b2, |c.b.blocks|), exact);
  }

  lemma BalancedIf(b: Builder, cond: Expr, a: AST, els: Option<AST>, keys: set<string>, exact: bool)
    requires BalancedStmt(b, If(cond, a, els), keys, exact)
    ensures Balanced(b, cond, keys, exact)
    ensures exact ==> ReleasableStmt(a, keys) && ReleasableOpt(els, keys) && KeysMatch(b, keys)
  {
    hide KeysMatch, Releasable;
  }

  lemma IsBalanced(b: Builder, t: AST, keys: set<string>, exact: bool)
    requires exact ==> ReleasableStmt(t, keys) && KeysMatch(b, keys)
    ensures BalancedStmt(b, t, keys, exact)
  {
    hide KeysMatch, ReleasableStmt;
  }

  lemma ConditionOwesNothing(v: Operand)
    requires TypeOfOperand(v).I1?
    ensures OwedFor(v) == multiset{}
  {
  }

  /** The builders of a conditional, one after the other. */
  lemma IfUnfolds(b: Builder, cond: Expr, a: AST, els: Option<AST>)
    returns (c: Computed, s: Builder, b1: Builder, e: Builder, b2: Builder)
    requires LowerStmt(b, If(cond, a, els)).Ok?
    ensures LowerExpr(b, cond) == Ok(c) && TypeOfOperand(c.v).I1?
    ensures s == IfStart(c.b, c.v) && LowerStmt(s, a) == Ok(b1)
    ensures |c.b.blocks| + 2 < |b1.blocks| && e == IfElse(b1, |c.b.blocks|) && LowerOpt(e, els) == Ok(b2)
    ensures |c.b.blocks| + 2 < |b2.blocks|
    ensures LowerStmt(b, If(cond, a, els)) == Ok(IfEnd(b2, |c.b.blocks|))
  {
    hide LowerExpr, LowerOpt, IfStart, IfElse, IfEnd;
    c := LowerExpr(b, cond).value;
    s := IfStart(c.b, c.v);
    b1 := LowerStmt(s, a).value;
    e := IfElse(b1, |c.b.blocks|);
    b2 := LowerOpt(e, els).value;
  }

  lemma IfStartKeeps(b: Builder, cond: Operand)
    ensures var s := IfStart(b, cond);
            Open(s) && s.refs == b.refs && s.over == b.over && s.meta == b.meta && s.next == b.next
  {
  }

  lemma IfEndKeeps(b: Builder, n: nat)
    requires n + 2 < |b.blocks|
    ensures var f := IfEnd(b, n); f.refs == b.refs && f.over == b.over && f.meta == b.meta && f.next == b.next
  {
  }

  lemma StmtGrownParts(a: Builder, b: Builder, exact: bool)
    requires StmtGrown(a, b, exact)
    ensures Grows(a, b) && Owes(a, b, multiset{}, exact) && WellFormed(b) && b.over == a.over && MetaLe(b.meta, a.meta)
    ensures a.next <= b.next && |a.blocks| <= |b.blocks|
  {
  }

  lemma IfElseOpen(a: Builder, cond: Operand, b1: Builder)
    requires Open(a) && Grows(IfStart(a, cond), b1) && |a.blocks| + 2 < |b1.blocks|
    ensures var e := IfElse(b1, |a.blocks|);
            Open(e) && e.refs == b1.refs && e.over == b1.over && e.meta == b1.meta && e.next == b1.next
  {
    var s := IfStart(a, cond);
    assert s.blocks[|a.blocks| + 1] == EMPTY_BLOCK == b1.blocks[|a.blocks| + 1];
  }

  /** Moving the insertion point to an open block keeps counts and overridden variables. */
  lemma SameRefs(a: Builder, b: Builder, exact: bool, keys: set<string>)
    requires WellFormed(a) && b.refs == a.refs && b.over == a.over && b.next >= a.next && Open(b)
    ensures WellFormed(b) && Owes(a, b, multiset{}, exact) && (KeysMatch(a, keys) ==> KeysMatch(b, keys))
  {
  }

  lemma IfOwes(b: Builder, c: Builder, s: Builder, b1: Builder, e: Builder, b2: Builder, f: Builder, exact: bool)
    requires WellFormed(b) && Grown(b, c, multiset{}, exact) && c.meta == b.meta
    requires s.refs == c.refs && s.over == c.over && s.meta == c.meta && s.next == c.next
    requires StmtGrown(s, b1, exact)
    requires e.refs == b1.refs && e.over == b1.over && e.meta == b1.meta && e.next == b1.next
    requires StmtGrown(e, b2, exact)
    requires f.refs == b2.refs && f.over == b2.over && f.meta == b2.meta && f.next == b2.next
    requires Grows(c, f)
    ensures StmtGrown(b, f, exact)
  {
    assert Owes(c, b1, multiset{}, exact);
    assert Owes(b1, f, multiset{}, exact);
    assert Owes(c, f, multiset{}, exact) by {
      OwesTrans(c, b1, f, multiset{}, multiset{}, exact);
      NothingTwice();
    }
    OwesTrans(b, c, f, multiset{}, multiset{}, exact);
    NothingTwice();
    GrowsTrans(b, c, f);
    OwesWellFormed(b, f, multiset{}, exact);
  }

  // ---------- Loops ----------

  lemma LoopStartGrows(a: Builder, parts: LoopParts)
    requires Open(a) && parts == PartsOf(a, parts.iterable)
    ensures var s := LoopStart(a, parts);
            && Open(s) && s.refs == a.refs && s.over == a.over && s.next == a.next + 3 && s.cur == parts.loop
            && s.meta == a.meta[parts.iterable := parts.meta]
            && |s.blocks| == |a.blocks| + 3
            && (forall i :: 0 <= i < |a.blocks| && i != a.cur ==> s.blocks[i] == a.blocks[i])
            && BlockLe(a.blocks[a.cur], s.blocks[a.cur]) && s.blocks[a.cur].term.Some?
            && s.blocks[parts.loop] == s.blocks[parts.loopElse] == s.blocks[parts.after] == EMPTY_BLOCK
  {
  }

  lemma LoopGrows(a: Builder, parts: LoopParts, b4: Builder, b5: Builder, b6: Builder, b7: Builder)
    requires Open(a) && parts == PartsOf(a, parts.iterable) && Grows(LoopStart(a, parts), b4)
    requires parts.loopElse < |b4.blocks| && LoopNext(b4, parts) == Ok(b5) && Grows(b5, b6)
    requires parts.after < |b6.blocks| && b7 == MoveTo(Terminate(b6, Br(parts.after)), parts.after)
    ensures Open(b5) && Grows(a, b7)
  {
    var s := LoopStart(a, parts);
    LoopStartGrows(a, parts);
    assert b4.blocks[parts.loopElse] == b4.blocks[parts.after] == EMPTY_BLOCK;
    assert b5.blocks[parts.loopElse] == b5.blocks[parts.after] == EMPTY_BLOCK;
    assert b6.blocks[parts.after] == EMPTY_BLOCK;
    forall i | |a.blocks| <= i < |b7.blocks| && i != parts.after
      ensures b7.blocks[i].term.Some?
    {
      if i < |b4.blocks| && i != parts.loopElse {
        assert b5.blocks[i].term.Some?;
      }
    }
    forall i | 0 <= i < |a.blocks| && i != a.cur
      ensures b7.blocks[i] == a.blocks[i]
    {
      assert b4.blocks[i] == s.blocks[i];
    }
  }

  function OwedForVars(vars: LoopVars): multiset<Operand> {
    (if vars.key.Some? then multiset{Variant(vars.key.value)} else multiset{})
    + (if vars.val.Some? then multiset{Variant(vars.val.value)} else multiset{})
  }

  lemma LoopGetGrown(s: Builder, meta: Meta, vars: LoopVars, exact: bool)
    requires WellFormed(s) && vars == VarsOf(s, vars.key.Some?, vars.val.Some?)
    ensures var b := LoopGet(s, meta, vars);
            && Grows(s, b) && Owes(s, b, OwedForVars(vars), exact) && WellFormed(b)
            && b.meta == s.meta && b.over == s.over && b.cur == s.cur && b.next >= s.next
            && (vars.key.Some? ==> Variant(vars.key.value) in b.refs && b.refs[Variant(vars.key.value)] == 1)
            && (vars.val.Some? ==> Variant(vars.val.value) in b.refs && b.refs[Variant(vars.val.value)] == -1)
  {
    hide Grown;
    var n := (if vars.key.Some? then 1 else 0) + (if vars.val.Some? then 1 else 0);
    var get := CallLoopGet(meta.table, meta.pos, vars.key, vars.val);
    var b3 := Emit(Fresh(s, n), get);
    GrownSelf(s, exact);
    GrownEmit(s, s, multiset{}, exact, n, get);
    var m: multiset<Operand> := multiset{};
    var b4 := b3;
    if vars.key.Some? {
      var key := Variant(vars.key.value);
      FreshOperand(s, s, multiset{}, exact, vars.key.value);
      GrownSetRef(s, b3, m, exact, key, 1);
      b4 := SetRef(b3, key, 1);
      m := m + multiset{key};
    }
    if vars.val.Some? {
      var val := Variant(vars.val.value);
      FreshOperand(s, s, multiset{}, exact, vars.val.value);
      GrownSetRef(s, b4, m, exact, val, -1);
      b4 := SetRef(b4, val, -1);
      m := m + multiset{val};
    }
    assert m == OwedForVars(vars);
    assert b4 == LoopGet(s, meta, vars);
    GrownParts(s, b4, m, exact);
  }

  lemma GrownParts(a: Builder, b: Builder, m: multiset<Operand>, exact: bool)
    requires Grown(a, b, m, exact)
    ensures Grows(a, b) && Owes(a, b, m, exact) && WellFormed(b) && b.over == a.over && a.next <= b.next
  {
  }

  /** Overriding the loop variables adds the key to the keys in scope and hides what the
      value hides. */
  lemma LoopOverMatches(s: Builder, b: Builder, k: Option<string>, v: Option<string>, vars: LoopVars, exact: bool,
                        keys: set<string>)
    requires WellFormed(b) && b.over == s.over && Owes(s, b, OwedForVars(vars), exact)
    requires vars.key.Some? == k.Some? && vars.val.Some? == v.Some?
    requires vars.key.Some? ==> Variant(vars.key.value) in b.refs && b.refs[Variant(vars.key.value)] == 1
    requires vars.val.Some? ==> Variant(vars.val.value) in b.refs && b.refs[Variant(vars.val.value)] == -1
    ensures var body := b.(over := LoopOver(b.over, k, v, vars));
            WellFormed(body) && (KeysMatch(s, keys) ==> KeysMatch(body, BodyKeys(k, v, keys)))
  {
  }

  /** Releasing what is owed, when the overridden variables may differ. */
  lemma ReleaseOwed(a: Builder, b: Builder, m: multiset<Operand>, exact: bool, v: Operand)
    requires WellFormed(a) && Grows(a, b) && Owes(a, b, m, exact) && v in m
    ensures GoesOutOfScope(b, v).Ok?
    ensures var b' := GoesOutOfScope(b, v).value;
            && Grows(a, b') && Owes(a, b', m - multiset{v}, exact)
            && b'.over == b.over && b'.meta == b.meta && b'.next == b.next && |b'.blocks| == |b.blocks|
    ensures Steady(b, GoesOutOfScope(b, v).value)
  {
    hide Grows, Owes, WellFormed, Emit;
    OwesRelease(a, b, m, exact, v);
    if b.refs[v] != -1 {
      var b1 := SetRef(b, v, b.refs[v] - 1);
      SameBlocksGrow(a, b, b1);
      GrowsEmit(a, b1, CallDestruct(v));
      EmitKeeps(b1, CallDestruct(v));
      SameRefsOwe(a, b1, Emit(b1, CallDestruct(v)), m - multiset{v}, exact);
    }
  }

  lemma EmitKeeps(b: Builder, i: Instr)
    ensures var b' := Emit(b, i);
            b'.refs == b.refs && b'.over == b.over && b'.meta == b.meta && b'.next == b.next
              && |b'.blocks| == |b.blocks|
  {
  }

  lemma SameBlocksGrow(a: Builder, b: Builder, b': Builder)
    requires Grows(a, b) && b'.blocks == b.blocks && b'.cur == b.cur && b'.next == b.next
    ensures Grows(a, b')
  {
  }

  lemma DropVariablesGrown(a: Builder, b: Builder, vars: LoopVars, exact: bool)
    requires WellFormed(a) && Grows(a, b) && Owes(a, b, OwedForVars(vars), exact)
    ensures DropVariables(b, vars).Ok?
    ensures var b' := DropVariables(b, vars).value;
            && Grows(a, b') && Owes(a, b', multiset{}, exact)
            && b'.over == b.over && b'.meta == b.meta && b'.next == b.next && |b'.blocks| == |b.blocks|
  {
    hide Grows, Owes, WellFormed, GoesOutOfScope;
    var m := OwedForVars(vars);
    var m1 := if vars.val.Some? then multiset{Variant(vars.val.value)} else multiset{};
    var b1 := b;
    if vars.key.Some? {
      ReleaseOwed(a, b, m, exact, Variant(vars.key.value));
      assert m - multiset{Variant(vars.key.value)} == m1;
      b1 := GoesOutOfScope(b, Variant(vars.key.value)).value;
    } else {
      assert m == m1;
    }
    if vars.val.Some? {
      ReleaseOwed(a, b1, m1, exact, Variant(vars.val.value));
      assert m1 - multiset{Variant(vars.val.value)} == multiset{};
    }
  }

  lemma RestoreUndoes(over: map<string, Operand>, k: Option<string>, v: Option<string>, vars: LoopVars)
    requires vars.key.Some? == k.Some? && vars.val.Some? == v.Some?
    ensures Restore(Restore(LoopOver(over, k, v, vars), k, over), v, over) == over
  {
  }

  /** The builders of a loop, one after the other. */
  ghost predicate LoopStages(b: Builder, k: Option<string>, v: Option<string>, it: Expr, a: AST, els: Option<AST>,
                             c: Computed, s: Builder, body: Builder, b3: Builder, b4: Builder, b5: Builder, b6: Builder)
  {
    var parts := PartsOf(c.b, c.v);
    var vars := VarsOf(s, k.Some?, v.Some?);
    var b2 := LoopGet(s, parts.meta, vars);
    && LowerExpr(b, it) == Ok(c) && IsVariantOperand(c.v)
    && s == LoopStart(c.b, parts)
    && body == b2.(over := LoopOver(b2.over, k, v, vars))
    && LowerStmt(body, a) == Ok(b3)
    && DropVariables(b3, vars).Ok?
    && (var d := DropVariables(b3, vars).value; b4 == d.(over := Restore(Restore(d.over, k, b2.over), v, b2.over)))
    && parts.loopElse < |b4.blocks|
    && LoopNext(b4, parts) == Ok(b5)
    && LowerOpt(b5, els) == Ok(b6)
    && parts.after < |b6.blocks|
    && LowerStmt(b, For(k, v, it, a, els)) == LoopEnd(b6, parts)
  }

  lemma LoopUnfolds(b: Builder, k: Option<string>, v: Option<string>, it: Expr, a: AST, els: Option<AST>)
    returns (c: Computed, s: Builder, body: Builder, b3: Builder, b4: Builder, b5: Builder, b6: Builder)
    requires LowerStmt(b, For(k, v, it, a, els)).Ok?
    ensures LoopStages(b, k, v, it, a, els, c, s, body, b3, b4, b5, b6)
    ensures BodyBegins(c.b, c.v, k, v, s, body)
    ensures LowerExpr(b, it) == Ok(c) && LowerStmt(body, a) == Ok(b3) && LowerOpt(b5, els) == Ok(b6)
    ensures LowerStmt(b, For(k, v, it, a, els)) == LoopEnd(b6, PartsOf(c.b, c.v))
  {
    hide LowerExpr, LowerOpt, LoopStart, LoopGet, LoopOver, LoopNext, LoopEnd, DropVariables, Restore;
    c := LowerExpr(b, it).value;
    var parts := PartsOf(c.b, c.v);
    s := LoopStart(c.b, parts);
    var vars := VarsOf(s, k.Some?, v.Some?);
    var b2 := LoopGet(s, parts.meta, vars);
    body := b2.(over := LoopOver(b2.over, k, v, vars));
    b3 := LowerStmt(body, a).value;
    var d := DropVariables(b3, vars).value;
    b4 := d.(over := Restore(Restore(d.over, k, b2.over), v, b2.over));
    b5 := LoopNext(b4, parts).value;
    b6 := LowerOpt(b5, els).value;
  }

  lemma ForGrown(b: Builder, k: Option<string>, v: Option<string>, it: Expr, a: AST, els: Option<AST>,
                 keys: set<string>, exact: bool)
    requires WellFormed(b) && LowerStmt(b, For(k, v, it, a, els)).Ok?
    requires BalancedStmt(b, For(k, v, it, a, els), keys, exact)
    ensures StmtGrown(b, LowerStmt(b, For(k, v, it, a, els)).value, exact)
    decreases For(k, v, it, a, els), 0
  {
    hide *;
    BalancedParts(b, k, v, it, a, els, keys, exact);
    var c, s, body, b3, b4, b5, b6 := LoopUnfolds(b, k, v, it, a, els);
    LowerExprGrown(b, it, keys, exact);
    ExprGrownParts(b, c, it, keys, exact);
    if exact { KeysKept(b, c.b, OwedFor(c.v), exact, keys); }
    BodyStart(c.b, c.v, k, v, s, body, keys, exact);
    IsBalanced(body, a, BodyKeys(k, v, keys), exact);
    LowerStmtGrown(body, a, BodyKeys(k, v, keys), exact);
    BodyEnd(b, k, v, it, a, els, c, s, body, b3, b4, b5, b6, keys, exact);
    LowerOptGrown(b5, els, keys, exact);
    LoopFinish(b, k, v, it, a, els, c, s, body, b3, b4, b5, b6, exact);
  }

  lemma BalancedParts(b: Builder, k: Option<string>, v: Option<string>, it: Expr, a: AST, els: Option<AST>,
                      keys: set<string>, exact: bool)
    requires BalancedStmt(b, For(k, v, it, a, els), keys, exact)
    ensures Balanced(b, it, keys, exact)
    ensures exact ==> ReleasableStmt(a, BodyKeys(k, v, keys)) && ReleasableOpt(els, keys) && KeysMatch(b, keys)
  {
    hide KeysMatch, Releasable;
  }

  lemma ExprGrownParts(b: Builder, c: Computed, e: Expr, keys: set<string>, exact: bool)
    requires ExprGrown(b, c, e, keys, exact)
    ensures Grown(b, c.b, OwedFor(c.v), exact) && WellFormed(c.b) && c.b.meta == b.meta && c.b.over == b.over
    ensures Grows(b, c.b) && Owes(b, c.b, OwedFor(c.v), exact)
  {
    hide Grows, Owes, WellFormed, OwedFor, OperandBelow, IsVariant;
  }

  ghost predicate BodyBegins(c: Builder, iterable: Operand, k: Option<string>, v: Option<string>, s: Builder,
                             body: Builder) {
    var parts := PartsOf(c, iterable);
    var vars := VarsOf(s, k.Some?, v.Some?);
    var b2 := LoopGet(s, parts.meta, vars);
    s == LoopStart(c, parts) && body == b2.(over := LoopOver(b2.over, k, v, vars))
  }

  lemma BodyStart(c: Builder, iterable: Operand, k: Option<string>, v: Option<string>, s: Builder, body: Builder,
                  keys: set<string>, exact: bool)
    requires WellFormed(c) && (exact ==> KeysMatch(c, keys))
    requires BodyBegins(c, iterable, k, v, s, body)
    ensures WellFormed(s) && WellFormed(body) && (exact ==> KeysMatch(body, BodyKeys(k, v, keys)))
    ensures Owes(c, s, multiset{}, exact) && c.next <= s.next
    ensures Grows(s, body) && Owes(s, body, OwedForVars(VarsOf(s, k.Some?, v.Some?)), exact)
    ensures body.meta == s.meta == c.meta[iterable := PartsOf(c, iterable).meta] && s.over == c.over
  {
    hide Grows, WellFormed, KeysMatch, LoopGet, LoopStart, Owes;
    var parts := PartsOf(c, iterable);
    WellFormedOpen(c);
    LoopStartGrows(c, parts);
    SameRefs(c, s, exact, keys);
    var vars := VarsOf(s, k.Some?, v.Some?);
    LoopGetGrown(s, parts.meta, vars, exact);
    var b2 := LoopGet(s, parts.meta, vars);
    SameBlocksGrow(s, b2, body);
    LoopOverMatches(s, b2, k, v, vars, exact, keys);
    SameRefsOwe(s, b2, body, OwedForVars(vars), exact);
  }

  lemma WellFormedOpen(b: Builder)
    requires WellFormed(b)
    ensures Open(b)
  {
  }

  lemma BodyEnd(b: Builder, k: Option<string>, v: Option<string>, it: Expr, a: AST, els: Option<AST>,
                c: Computed, s: Builder, body: Builder, b3: Builder, b4: Builder, b5: Builder, b6: Builder,
                keys: set<string>, exact: bool)
    requires LoopStages(b, k, v, it, a, els, c, s, body, b3, b4, b5, b6)
    requires WellFormed(b) && Grown(b, c.b, OwedFor(c.v), exact) && (exact ==> KeysMatch(c.b, keys))
    requires WellFormed(c.b) && WellFormed(s) && s.over == c.b.over && Owes(c.b, s, multiset{}, exact)
    requires c.b.next <= s.next
    requires Grows(s, body) && Owes(s, body, OwedForVars(VarsOf(s, k.Some?, v.Some?)), exact)
    requires StmtGrown(body, b3, exact)
    ensures Grows(s, b4) && Owes(s, b4, multiset{}, exact) && b4.over == b.over && b4.meta == b3.meta
    ensures Open(b5) && Owes(c.b, b5, multiset{}, exact) && WellFormed(b5) && (exact ==> KeysMatch(b5, keys))
    ensures b5.over == b.over && b5.meta == b4.meta && b5.next >= c.b.next
  {
    hide LowerExpr, LowerStmt, LowerOpt, WellFormed, Grows, KeysMatch, StmtGrown, Grown, Owes, DropVariables, LoopGet,
         LoopStart, LoopNext;
    var vars := VarsOf(s, k.Some?, v.Some?);
    var owed := OwedForVars(vars);
    StmtGrownParts(body, b3, exact);
    GrownParts(b, c.b, OwedFor(c.v), exact);
    OwesGrows(s, body, b3, owed, exact);
    DropVariablesGrown(s, b3, vars, exact);
    var d := DropVariables(b3, vars).value;
    LoopGetOver(s, PartsOf(c.b, c.v).meta, vars);
    RestoreUndoes(s.over, k, v, vars);
    SameBlocksGrow(s, d, b4);
    SameRefsOwe(s, d, b4, multiset{}, exact);
    NextOpen(c.b, c.v, s, b4, b5);
    OwesChain(c.b, s, b4, b5, exact);
    OwesWellFormed(c.b, b5, multiset{}, exact);
    if exact { OwesKeepsKeys(c.b, b5, multiset{}, exact, keys); }
  }

  lemma OwesGrows(a: Builder, b: Builder, c: Builder, owed: multiset<Operand>, exact: bool)
    requires Grows(a, b) && Owes(a, b, owed, exact) && Grows(b, c) && Owes(b, c, multiset{}, exact)
    ensures Grows(a, c) && Owes(a, c, owed, exact)
  {
    GrowsTrans(a, b, c);
    OwesTrans(a, b, c, owed, multiset{}, exact);
    assert owed + multiset{} == owed;
  }

  lemma LoopGetOver(s: Builder, meta: Meta, vars: LoopVars)
    ensures LoopGet(s, meta, vars).over == s.over
  {
  }

  lemma SameRefsOwe(a: Builder, b: Builder, b': Builder, m: multiset<Operand>, exact: bool)
    requires Owes(a, b, m, exact) && b'.refs == b.refs && b'.next >= b.next
    ensures Owes(a, b', m, exact)
  {
  }

  lemma OwesChain(a: Builder, b: Builder, c: Builder, c': Builder, exact: bool)
    requires Owes(a, b, multiset{}, exact) && Owes(b, c, multiset{}, exact) && a.next <= b.next <= c.next
    requires c'.refs == c.refs && c'.next >= c.next
    ensures Owes(a, c', multiset{}, exact)
  {
    OwesTrans(a, b, c, multiset{}, multiset{}, exact);
    NothingTwice();
  }

  lemma OwesKeepsKeys(a: Builder, b: Builder, m: multiset<Operand>, exact: bool, keys: set<string>)
    requires Owes(a, b, m, exact) && b.over == a.over && KeysMatch(a, keys)
    ensures KeysMatch(b, keys)
  {
  }

  lemma NextOpen(c: Builder, iterable: Operand, s: Builder, b4: Builder, b5: Builder)
    requires Open(c) && s == LoopStart(c, PartsOf(c, iterable)) && Grows(s, b4)
    requires PartsOf(c, iterable).loopElse < |b4.blocks| && LoopNext(b4, PartsOf(c, iterable)) == Ok(b5)
    ensures Open(b5) && b5.refs == b4.refs && b5.over == b4.over && b5.meta == b4.meta && b5.next == b4.next + 1
    ensures iterable in b4.meta && s.next <= b4.next
  {
    LoopStartGrows(c, PartsOf(c, iterable));
  }

  lemma LoopFinish(b: Builder, k: Option<string>, v: Option<string>, it: Expr, a: AST, els: Option<AST>, c: Computed,
                   s: Builder, body: Builder, b3: Builder, b4: Builder, b5: Builder, b6: Builder, exact: bool)
    requires LoopStages(b, k, v, it, a, els, c, s, body, b3, b4, b5, b6)
    requires WellFormed(b) && Grown(b, c.b, OwedFor(c.v), exact) && c.b.meta == b.meta
    requires s.meta == c.b.meta[c.v := PartsOf(c.b, c.v).meta] && body.meta == s.meta
    requires StmtGrown(body, b3, exact) && Grows(s, b4) && b4.meta == b3.meta
    requires Owes(c.b, b5, multiset{}, exact) && b5.over == b.over && b5.meta == b4.meta && b5.next >= c.b.next
    requires StmtGrown(b5, b6, exact)
    ensures LoopEnd(b6, PartsOf(c.b, c.v)).Ok? && StmtGrown(b, LoopEnd(b6, PartsOf(c.b, c.v)).value, exact)
  {
    hide *;
    var parts := PartsOf(c.b, c.v);
    StagesEnd(b, k, v, it, a, els, c, s, body, b3, b4, b5, b6);
    TerminateKeeps(b6, parts.after);
    var b7 := MoveTo(Terminate(b6, Br(parts.after)), parts.after);
    var b8 := b7.(meta := b7.meta - {c.v});
    GrownParts(b, c.b, OwedFor(c.v), exact);
    StmtGrownParts(body, b3, exact);
    StmtGrownParts(b5, b6, exact);
    GrowsOpen(b, c.b);
    LoopGrows(c.b, parts, b4, b5, b6, b7);
    GrowsTrans(b, c.b, b7);
    SameBlocksGrow(b, b7, b8);
    OwesChain(c.b, b5, b6, b8, exact);
    OwesTrans(b, c.b, b8, OwedFor(c.v), multiset{}, exact);
    OwedForVariant(c.v);
    assert OwedFor(c.v) + multiset{} == multiset{c.v};
    ReleaseOwed(b, b8, multiset{c.v}, exact, c.v);
    assert multiset{c.v} - multiset{c.v} == multiset{};
    var f := GoesOutOfScope(b8, c.v).value;
    GrowsOpen(b, f);
    OwesWellFormed(b, f, multiset{}, exact);
    MetaRestored(c.v, parts.meta, b.meta, s.meta, b4.meta, b6.meta, b8.meta);
    IsStmtGrown(b, f, exact);
  }

  /** The part of LoopStages about the end of a loop. */
  lemma StagesEnd(b: Builder, k: Option<string>, v: Option<string>, it: Expr, a: AST, els: Option<AST>,
                  c: Computed, s: Builder, body: Builder, b3: Builder, b4: Builder, b5: Builder, b6: Builder)
    requires LoopStages(b, k, v, it, a, els, c, s, body, b3, b4, b5, b6)
    ensures var parts := PartsOf(c.b, c.v);
            && IsVariantOperand(c.v) && parts == PartsOf(c.b, parts.iterable) && s == LoopStart(c.b, parts)
            && parts.loopElse < |b4.blocks| && LoopNext(b4, parts) == Ok(b5) && parts.after < |b6.blocks|
            && var b7 := MoveTo(Terminate(b6, Br(parts.after)), parts.after);
               LoopEnd(b6, parts) == GoesOutOfScope(b7.(meta := b7.meta - {c.v}), c.v)
  {
    hide LowerExpr, LowerStmt, LowerOpt, LoopStart, LoopGet, LoopOver, LoopNext, DropVariables, Restore, GoesOutOfScope,
         Terminate, MoveTo;
  }

  lemma TerminateKeeps(b: Builder, after: nat)
    requires after < |b.blocks|
    ensures |Terminate(b, Br(after)).blocks| == |b.blocks|
    ensures var b' := MoveTo(Terminate(b, Br(after)), after);
            b'.refs == b.refs && b'.over == b.over && b'.meta == b.meta && b'.next == b.next
              && |b'.blocks| == |b.blocks|
  {
  }

  lemma MetaRestored(o: Operand, meta: Meta, before: map<Operand, Meta>, started: map<Operand, Meta>,
                     body: map<Operand, Meta>, end: map<Operand, Meta>, after: map<Operand, Meta>)
    requires started == before[o := meta] && MetaLe(body, started) && MetaLe(end, body) && after == end - {o}
    ensures MetaLe(after, before)
  {
  }

  lemma GrowsOpen(a: Builder, b: Builder)
    requires Grows(a, b)
    ensures Open(b) && a.next <= b.next
  {
  }

  lemma IsStmtGrown(a: Builder, b: Builder, exact: bool)
    requires Grows(a, b) && Owes(a, b, multiset{}, exact) && b.over == a.over && WellFormed(b) && MetaLe(b.meta, a.meta)
    ensures StmtGrown(a, b, exact)
  {
  }
}
