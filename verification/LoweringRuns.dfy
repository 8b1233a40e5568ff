/** How the machine runs what the bindings emit: each binding computes its value, or returns
    from the function when a call fails, and keeps live temporaries and reference counts in
    step. */
module LoweringRuns {
  import opened Results
  import opened Ast
  import opened Semantics
  import opened Ir
  import opened Lowering
  import opened LoweringFrames

  // ---------- Running what was emitted ----------

  /** The machine has executed everything up to the insertion point. */
  function End(b: Builder, s: State): Config {
    At(b.cur, |b.blocks[b.cur].instrs|, s)
  }

  /** The function that runs is the one under construction, perhaps later. */
  ghost predicate Within(b: Builder, m: Machine) {
    BlocksLe(b.blocks, m.blocks)
  }

  lemma WithinGrows(a: Builder, b: Builder, m: Machine)
    requires Grows(a, b) && Within(b, m)
    ensures Within(a, m)
  {
    GrowsLe(a, b);
    BlocksLeTrans(a.blocks, b.blocks, m.blocks);
  }

  lemma WithinEmit(b: Builder, i: Instr, m: Machine)
    requires Open(b) && Within(Emit(b, i), m)
    ensures Within(b, m) && Open(Emit(b, i))
  {
    BlocksLeTrans(b.blocks, Emit(b, i).blocks, m.blocks);
  }

  lemma WithinTerminate(b: Builder, t: Terminator, m: Machine)
    requires Open(b) && Within(Terminate(b, t), m)
    ensures Within(b, m)
  {
    BlocksLeTrans(b.blocks, Terminate(b, t).blocks, m.blocks);
  }

  lemma WithinCheck(b: Builder, cond: Operand, m: Machine)
    requires Open(b) && Within(ReturnIfFails(b, cond), m)
    ensures Within(b, m) && Open(ReturnIfFails(b, cond))
  {
    GrowsSelf(b);
    GrowsCheck(b, b, cond);
    WithinGrows(b, ReturnIfFails(b, cond), m);
  }

  lemma WithinRelease(b: Builder, v: Operand, m: Machine)
    requires Open(b) && GoesOutOfScope(b, v).Ok? && Within(GoesOutOfScope(b, v).value, m)
    ensures Within(b, m) && Open(GoesOutOfScope(b, v).value)
  {
    if b.refs[v] == 1 {
      WithinEmit(SetRef(b, v, 0), CallDestruct(v), m);
    }
  }

  lemma EmitRuns(m: Machine, b: Builder, i: Instr, s: State, s': State)
    requires Open(b) && Within(Emit(b, i), m) && Exec(m, i, s) == Some(s')
    ensures Reaches(m, End(b, s), End(Emit(b, i), s'))
  {
    hide Exec;
    var b' := Emit(b, i);
    assert BlockLe(b'.blocks[b.cur], m.blocks[b.cur]);
    var pc := |b.blocks[b.cur].instrs|;
    assert b'.blocks[b.cur].instrs[pc] == i;
    ReachesStep(m, End(b, s));
  }

  lemma TerminateRuns(m: Machine, b: Builder, t: Terminator, s: State)
    requires Open(b) && Within(Terminate(b, t), m)
    ensures t.RetVoid? ==> Reaches(m, End(b, s), Done(s))
    ensures t.Br? ==> Reaches(m, End(b, s), At(t.target, 0, s))
    ensures t.CondBr? ==> forall x :: ValueOf(s, t.cond) == Some(Bool(x)) ==>
              Reaches(m, End(b, s), At(if x then t.yes else t.no, 0, s))
  {
    var b' := Terminate(b, t);
    assert BlockLe(b'.blocks[b.cur], m.blocks[b.cur]);
    ReachesStep(m, End(b, s));
  }

  /** Early return: the machine goes on in the new block, or is done. */
  lemma CheckRuns(m: Machine, b: Builder, cond: Operand, s: State, x: bool)
    requires Open(b) && Within(ReturnIfFails(b, cond), m) && ValueOf(s, cond) == Some(Bool(x))
    ensures x ==> Reaches(m, End(b, s), End(ReturnIfFails(b, cond), s))
    ensures !x ==> Reaches(m, End(b, s), Done(s))
  {
    var success, fail := |b.blocks|, |b.blocks| + 1;
    var b0 := Append(Append(NewBlocks(b, 2), success), fail);
    var b1 := Terminate(b0, CondBr(cond, success, fail));
    var b2 := Terminate(MoveTo(b1, fail), RetVoid);
    assert b2.blocks == ReturnIfFails(b, cond).blocks && Within(b2, m);
    WithinTerminate(MoveTo(b1, fail), RetVoid, m);
    assert Within(b1, m);
    TerminateRuns(m, b0, CondBr(cond, success, fail), s);
    assert End(b0, s) == End(b, s);
    if x {
      assert End(ReturnIfFails(b, cond), s) == At(success, 0, s);
    } else {
      TerminateRuns(m, MoveTo(b1, fail), RetVoid, s);
      assert End(MoveTo(b1, fail), s) == At(fail, 0, s);
      ReachesTrans(m, End(b, s), At(fail, 0, s), Done(s));
    }
  }

  lemma CheckedCallRuns(m: Machine, b: Builder, ok: nat, call: Instr, s: State, s': State, x: bool)
    requires Open(b) && Within(CheckedCall(b, ok, call), m)
    requires Exec(m, call, s) == Some(s') && ValueOf(s', Reg(ok, I1)) == Some(Bool(x))
    ensures Open(CheckedCall(b, ok, call)) && Within(b, m)
    ensures x ==> Reaches(m, End(b, s), End(CheckedCall(b, ok, call), s'))
    ensures !x ==> Reaches(m, End(b, s), Done(s'))
  {
    var b1 := Emit(Fresh(b, 2), call);
    var c := Reg(ok, I1);
    hide Reaches, Emit, ReturnIfFails, Exec, ValueOf, Within;
    FreshStays(b, 2, s, m);
    OpenEmit(Fresh(b, 2), call);
    WithinCheck(b1, c, m);
    WithinEmit(Fresh(b, 2), call, m);
    EmitRuns(m, Fresh(b, 2), call, s, s');
    CheckRuns(m, b1, c, s', x);
    if x {
      ReachesTrans(m, End(b, s), End(b1, s'), End(ReturnIfFails(b1, c), s'));
    } else {
      ReachesTrans(m, End(b, s), End(b1, s'), Done(s'));
    }
  }

  lemma OpenEmit(b: Builder, i: Instr)
    requires Open(b)
    ensures Open(Emit(b, i))
  {
  }

  /** Reserving registers emits nothing. */
  lemma FreshStays(b: Builder, n: nat, s: State, m: Machine)
    ensures End(Fresh(b, n), s) == End(b, s) && Open(Fresh(b, n)) == Open(b) && Within(Fresh(b, n), m) == Within(b, m)
  {
  }

  // ---------- Registers and temporaries ----------

  /** Registers below n keep what they hold, and no temporary in one of them is created. */
  ghost predicate AgreeBelow(s: State, s': State, n: nat) {
    && (forall id :: id in s.regs && id < n ==> id in s'.regs && s'.regs[id] == s.regs[id])
    && (forall id :: id in s'.live && id < n ==> id in s.live)
  }

  lemma AgreeTrans(s1: State, s2: State, s3: State, m: nat, n: nat)
    requires AgreeBelow(s1, s2, m) && AgreeBelow(s2, s3, n) && m <= n
    ensures AgreeBelow(s1, s3, m)
  {
  }

  lemma OperandKept(s: State, s': State, n: nat, o: Operand)
    requires AgreeBelow(s, s', n) && OperandBelow(o, n) && ValueOf(s, o).Some?
    ensures ValueOf(s', o) == ValueOf(s, o) && RootOf(s', o) == RootOf(s, o)
  {
  }

  predicate Counted(b: Builder, id: nat) {
    Variant(id) in b.refs && b.refs[Variant(id)] >= 1
  }

  /** Which temporaries a run keeps track of: all of them where everything is released
      (`exact`), otherwise those in use, which are some older ones and those from a register
      on.  A leaked temporary of a branch not taken is counted without being alive. */
  datatype Tracked = Tracked(exact: bool, ids: set<nat>, from: nat)

  predicate Tracks(track: Tracked, id: nat) {
    track.exact || id in track.ids || track.from <= id
  }

  /** The tracked variants with outstanding references are alive, each in its own storage;
      where everything is released, nothing else is, and nothing was created over a live
      temporary. */
  ghost predicate Alive(b: Builder, s: State, track: Tracked) {
    && track.from <= b.next
    && (forall id: nat :: Counted(b, id) && Tracks(track, id) ==>
          id < b.next && id in s.live && id in s.regs && s.regs[id].root == Some(id))
    && (track.exact ==> !s.recreated && forall id: nat :: id in s.live ==> Counted(b, id))
  }

  /** Only variants have storage, and the variants in use are tracked. */
  predicate Proper(s: State, o: Operand, track: Tracked) {
    if IsVariantOperand(o) then o.Reg? ==> Tracks(track, o.id) else RootOf(s, o).None?
  }

  /** The only reference to a temporary. */
  predicate Single(c: Computed) {
    c.v in c.b.refs && c.b.refs[c.v] == 1
  }

  /** Running from b computes v as the operand of c, or returns early where v is None. */
  ghost predicate Computes(m: Machine, b: Builder, s: State, c: Computed, s': State, v: Option<Value>, track: Tracked) {
    && s'.out == s.out
    && (v.Some? ==>
          && Reaches(m, End(b, s), End(c.b, s'))
          && AgreeBelow(s, s', b.next)
          && ValueOf(s', c.v) == v
          && (Alive(c.b, s', track) && Proper(s', c.v, track)))
    && (v.None? ==> Reaches(m, End(b, s), Done(s')) && (track.exact ==> !s'.recreated))
  }

  lemma ComputesAfter(m: Machine, b: Builder, s: State, b1: Builder, s1: State, c: Computed, s2: State,
                      v: Option<Value>, track: Tracked)
    requires Reaches(m, End(b, s), End(b1, s1)) && s1.out == s.out && AgreeBelow(s, s1, b.next) && b.next <= b1.next
    requires Computes(m, b1, s1, c, s2, v, track)
    ensures Computes(m, b, s, c, s2, v, track)
  {
    hide Reaches, Alive, Proper, ValueOf, End;
    if v.Some? {
      ReachesTrans(m, End(b, s), End(b1, s1), End(c.b, s2));
      AgreeTrans(s, s1, s2, b.next, b1.next);
    } else {
      ReachesTrans(m, End(b, s), End(b1, s1), Done(s2));
    }
  }

  /** The operand that is already there. */
  lemma ComputesSelf(m: Machine, b: Builder, s: State, c: Computed, track: Tracked)
    requires c.b.blocks == b.blocks && c.b.cur == b.cur && ValueOf(s, c.v).Some?
    requires Alive(c.b, s, track) && Proper(s, c.v, track)
    ensures Computes(m, b, s, c, s, ValueOf(s, c.v), track)
  {
    ReachesSelf(m, End(b, s));
  }

  /** One instruction that stores a value into a new register. */
  lemma StoreRuns(m: Machine, b: Builder, n: nat, i: Instr, s: State, dst: nat, v: Value, root: Option<nat>)
    requires Open(b) && Within(Emit(Fresh(b, n), i), m) && b.next <= dst
    requires Exec(m, i, s) == Some(Store(s, dst, v, root))
    ensures var s' := Store(s, dst, v, root);
            && Reaches(m, End(b, s), End(Emit(Fresh(b, n), i), s'))
            && AgreeBelow(s, s', b.next) && s'.out == s.out && s'.live == s.live && s'.dangling == s.dangling
            && forall ty :: ValueOf(s', Reg(dst, ty)) == Some(v) && RootOf(s', Reg(dst, ty)) == root
  {
    hide Reaches, Exec;
    FreshStays(b, n, s, m);
    EmitRuns(m, Fresh(b, n), i, s, Store(s, dst, v, root));
  }

  /** Storing above the live temporaries. */
  lemma AliveStore(b: Builder, b': Builder, s: State, dst: nat, v: Value, root: Option<nat>, track: Tracked)
    requires Alive(b, s, track) && b.next <= dst && b'.refs == b.refs && b.next <= b'.next
    ensures Alive(b', Store(s, dst, v, root), track)
  {
  }

  lemma AliveUncounted(b: Builder, s: State, id: nat, track: Tracked)
    requires Alive(b, s, track) && !Counted(b, id)
    ensures Alive(SetRef(b, Variant(id), -1), s, track)
  {
  }

  lemma AliveCreate(b: Builder, b': Builder, s: State, dst: nat, v: Value, track: Tracked)
    requires Alive(b, s, track) && b.next <= dst < b'.next && b'.refs == b.refs
    ensures Alive(SetRef(b', Variant(dst), 1), Create(s, dst, v), track)
  {
    forall id: nat | id != dst
      ensures Counted(SetRef(b', Variant(dst), 1), id) <==> Counted(b, id)
    {
    }
  }

  /** One more reference to a variant that has some already, or is never counted. */
  lemma AliveNewReference(b: Builder, s: State, v: Operand, track: Tracked)
    requires Alive(b, s, track) && NewReference(b, v).Ok? && b.refs[v] != 0 && b.refs[v] >= -1
    ensures Alive(NewReference(b, v).value, s, track)
  {
  }

  /** A released reference: the temporary ends with its last one. */
  lemma ReleaseRuns(m: Machine, b: Builder, v: Operand, s: State, track: Tracked) returns (s': State)
    requires Open(b) && GoesOutOfScope(b, v).Ok? && Within(GoesOutOfScope(b, v).value, m)
    requires v.Reg? && v.ty.VariantPtr? && Alive(b, s, track) && (b.refs[v] == 1 ==> Tracks(track, v.id))
    ensures Reaches(m, End(b, s), End(GoesOutOfScope(b, v).value, s'))
    ensures s'.regs == s.regs && s'.out == s.out && s'.live <= s.live && (b.refs[v] == 1 ==> v.id !in s'.live)
    ensures Alive(GoesOutOfScope(b, v).value, s', track) && s'.dangling == s.dangling
  {
    hide Reaches;
    if b.refs[v] == 1 {
      var b1 := SetRef(b, v, 0);
      s' := Exec(m, CallDestruct(v), s).value;
      EmitRuns(m, b1, CallDestruct(v), s, s');
      DestroysLast(m, b, v, s, track);
    } else {
      s' := s;
      ReachesSelf(m, End(b, s));
      KeepsOthers(b, v, s, track);
    }
  }

  lemma KeepsOthers(b: Builder, v: Operand, s: State, track: Tracked)
    requires v.Reg? && v.ty.VariantPtr? && Alive(b, s, track) && v in b.refs && b.refs[v] != 1
    ensures b.refs[v] != -1 ==> Alive(SetRef(b, v, b.refs[v] - 1), s, track)
  {
    assert v == Variant(v.id);
    var b' := SetRef(b, v, b.refs[v] - 1);
    forall id: nat
      ensures Counted(b', id) ==> Counted(b, id)
      ensures b.refs[v] != -1 && Counted(b, id) ==> Counted(b', id)
    {
    }
  }

  lemma DestroysLast(m: Machine, b: Builder, v: Operand, s: State, track: Tracked)
    requires v.Reg? && v.ty.VariantPtr? && Alive(b, s, track) && v in b.refs && b.refs[v] == 1 && Tracks(track, v.id)
    ensures var s' := Exec(m, CallDestruct(v), s).value;
            Alive(Emit(SetRef(b, v, 0), CallDestruct(v)), s', track) && s'.dangling == s.dangling
  {
    var s' := s.(live := s.live - {v.id});
    assert v == Variant(v.id) && Counted(b, v.id);
    assert Exec(m, CallDestruct(v), s) == Some(s');
  }

  lemma SameRegs(s: State, s': State, o: Operand, n: nat)
    requires s'.regs == s.regs && s'.live <= s.live
    ensures ValueOf(s', o) == ValueOf(s, o) && RootOf(s', o) == RootOf(s, o) && AgreeBelow(s, s', n)
  {
  }

  /** Releasing both operands of an operation whose result is already there. */
  lemma BothReleaseRuns(m: Machine, b: Builder, l: Operand, r: Operand, s: State, track: Tracked) returns (s': State)
    requires Open(b) && BothGoOutOfScope(b, l, r).Ok? && Within(BothGoOutOfScope(b, l, r).value, m)
    requires l.Reg? && l.ty.VariantPtr? && r.Reg? && r.ty.VariantPtr? && Alive(b, s, track)
    requires Tracks(track, l.id) && Tracks(track, r.id)
    ensures Reaches(m, End(b, s), End(BothGoOutOfScope(b, l, r).value, s'))
    ensures Within(b, m)
    ensures s'.regs == s.regs && s'.out == s.out && s'.live <= s.live
    ensures Alive(BothGoOutOfScope(b, l, r).value, s', track) && s'.dangling == s.dangling
  {
    hide Reaches, Alive, GoesOutOfScope, Within, Open, Counted;
    var b1 := GoesOutOfScope(b, l).value;
    var b2 := GoesOutOfScope(b1, r).value;
    ReleaseOpen(b, l);
    WithinRelease(b1, r, m);
    WithinRelease(b, l, m);
    var s1 := ReleaseRuns(m, b, l, s, track);
    s' := ReleaseRuns(m, b1, r, s1, track);
    ReachesTrans(m, End(b, s), End(b1, s1), End(b2, s'));
  }

  lemma ReleaseOpen(b: Builder, v: Operand)
    requires Open(b) && GoesOutOfScope(b, v).Ok?
    ensures Open(GoesOutOfScope(b, v).value) && GoesOutOfScope(b, v).value.next == b.next
    ensures GoesOutOfScope(b, v).value.over == b.over
  {
  }

  // ---------- Variant operations ----------

  /** Counts are metadata of the builder: changing one emits nothing. */
  lemma SetRefStays(b: Builder, v: Operand, n: int, s: State, m: Machine)
    ensures End(SetRef(b, v, n), s) == End(b, s) && Open(SetRef(b, v, n)) == Open(b)
    ensures Within(SetRef(b, v, n), m) == Within(b, m)
  {
  }

  /** What computing operands beforehand guarantees to the operation that uses them. */
  ghost predicate Operands(b: Builder, s: State, l: Operand, x: Value, r: Operand, y: Value, track: Tracked) {
    && ValueOf(s, l) == Some(x) && ValueOf(s, r) == Some(y)
    && OperandBelow(l, b.next) && OperandBelow(r, b.next)
    && (Alive(b, s, track) && Proper(s, l, track) && Proper(s, r, track))
  }

  /** References held before are held afterwards. */
  ghost predicate CountsKept(b: Builder, b': Builder) {
    forall id :: Counted(b, id) ==> Counted(b', id)
  }

  lemma WrapRuns(m: Machine, b: Builder, v: Operand, s: State, x: Value, track: Tracked) returns (s': State)
    requires Open(b) && Within(WrapAsVariant(b, v).b, m)
    requires Operands(b, s, v, x, v, x, track)
    ensures var w := WrapAsVariant(b, v);
            && Computes(m, b, s, w, s', Some(x), track)
            && Open(w.b) && Within(b, m) && b.next <= w.b.next && CountsKept(b, w.b)
            && w.v.Reg? && w.v.ty.VariantPtr? && w.v.id < w.b.next
            && s'.live == s.live && s'.dangling == s.dangling && (Usable(s', w.v) <==> Usable(s, v))
  {
    var w := WrapAsVariant(b, v);
    if IsVariantOperand(v) {
      s' := s;
      ComputesSelf(m, b, s, w, track);
    } else {
      var i := CallWrap(b.next, v);
      var b1 := Emit(Fresh(b, 1), i);
      s' := Store(s, b.next, x, None);
      assert Exec(m, i, s) == Some(s');
      hide Exec, Reaches, Alive, Within, Open, Store, Operands, Emit;
      FreshStays(b, 1, s, m);
      SetRefStays(b1, w.v, -1, s', m);
      OpenEmit(Fresh(b, 1), i);
      WithinEmit(Fresh(b, 1), i, m);
      StoreRuns(m, b, 1, i, s, b.next, x, None);
      EmitCounts(b, 1, i);
      OperandsAlive(b, s, v, x, v, x, track);
      AliveStore(b, b1, s, b.next, x, None, track);
      AliveUncounted(b1, s', b.next, track);
      NewUncounted(b, b1, s, b.next, track);
    }
  }

  lemma EmitCounts(b: Builder, n: nat, i: Instr)
    ensures var b' := Emit(Fresh(b, n), i);
            b'.refs == b.refs && b'.next == b.next + n && b'.over == b.over && b'.meta == b.meta
  {
  }

  lemma NewUncounted(b: Builder, b': Builder, s: State, id: nat, track: Tracked)
    requires Alive(b, s, track) && b'.refs == b.refs && b.next <= id
    ensures CountsKept(b, SetRef(b', Variant(id), -1)) && CountsKept(b, SetRef(b', Variant(id), 1))
  {
  }

  lemma OperandsAlive(b: Builder, s: State, l: Operand, x: Value, r: Operand, y: Value, track: Tracked)
    requires Operands(b, s, l, x, r, y, track)
    ensures Alive(b, s, track) && !Counted(b, b.next)
  {
  }

  /** Wrapping both operands leaves both values computed and held. */
  ghost predicate WrapsBoth(m: Machine, b: Builder, s: State, w: Wrapped, s': State, x: Value, y: Value,
                            track: Tracked) {
    && Open(w.b) && Within(b, m) && b.next <= w.b.next
    && Reaches(m, End(b, s), End(w.b, s')) && s'.out == s.out && AgreeBelow(s, s', b.next)
    && Operands(w.b, s', w.l, x, w.r, y, track)
    && CountsKept(b, w.b)
    && w.l.Reg? && w.l.ty.VariantPtr? && w.r.Reg? && w.r.ty.VariantPtr?
  }

  /** Wrapping is no use of what is wrapped. */
  ghost predicate StorageKept(s: State, s': State, l: Operand, l': Operand) {
    s'.live == s.live && s'.dangling == s.dangling && (Usable(s', l') <==> Usable(s, l))
  }

  lemma OperandsParts(b: Builder, s: State, l: Operand, x: Value, r: Operand, y: Value, track: Tracked)
    requires Operands(b, s, l, x, r, y, track)
    ensures ValueOf(s, l) == Some(x) && ValueOf(s, r) == Some(y)
    ensures (l.Reg? ==> l.id < b.next) && (r.Reg? ==> r.id < b.next)
    ensures Alive(b, s, track) && Proper(s, l, track) && Proper(s, r, track)
    ensures l.Reg? && l.ty.VariantPtr? ==> Tracks(track, l.id)
    ensures r.Reg? && r.ty.VariantPtr? ==> Tracks(track, r.id)
  {
    hide ValueOf, Alive;
  }

  lemma WrapBothRuns(m: Machine, b: Builder, l: Operand, r: Operand, s: State, x: Value, y: Value, track: Tracked)
    returns (s': State)
    requires Open(b) && Within(WrapBoth(b, l, r).b, m) && Operands(b, s, l, x, r, y, track)
    ensures var w := WrapBoth(b, l, r);
            && WrapsBoth(m, b, s, w, s', x, y, track)
            && StorageKept(s, s', l, w.l) && StorageKept(s, s', r, w.r)
  {
    var wl := WrapAsVariant(b, l);
    var wr := WrapAsVariant(wl.b, r);
    hide Reaches, Alive, Within, Open, WrapAsVariant, Proper, CountsKept, RootOf, ValueOf;
    WrapOpen(b, l, m);
    WrapOpen(wl.b, r, m);
    var s1 := WrapRuns(m, b, l, s, x, track);
    OperandKept(s, s1, b.next, r);
    ProperKept(s, s1, r, track);
    s' := WrapRuns(m, wl.b, r, s1, y, track);
    OperandKept(s1, s', wl.b.next, wl.v);
    ProperKept(s1, s', wl.v, track);
    CountsKeptTrans(b, wl.b, wr.b);
    ReachesTrans(m, End(b, s), End(wl.b, s1), End(wr.b, s'));
    AgreeTrans(s, s1, s', b.next, wl.b.next);
  }

  lemma WrapsBothParts(m: Machine, b: Builder, s: State, w: Wrapped, s': State, x: Value, y: Value, track: Tracked)
    requires WrapsBoth(m, b, s, w, s', x, y, track)
    ensures Open(w.b) && b.next <= w.b.next && Operands(w.b, s', w.l, x, w.r, y, track)
    ensures Reaches(m, End(b, s), End(w.b, s')) && s'.out == s.out && AgreeBelow(s, s', b.next)
    ensures w.l.Reg? && w.l.ty.VariantPtr? && w.r.Reg? && w.r.ty.VariantPtr?
  {
    hide Open, Operands, Reaches, End, AgreeBelow, Within, CountsKept;
  }

  lemma WrapOpen(b: Builder, v: Operand, m: Machine)
    requires Open(b)
    ensures Open(WrapAsVariant(b, v).b) && (Within(WrapAsVariant(b, v).b, m) ==> Within(b, m))
  {
    var i := CallWrap(b.next, v);
    if !IsVariantOperand(v) && Within(WrapAsVariant(b, v).b, m) {
      WithinEmit(Fresh(b, 1), i, m);
    }
  }

  /** Registers that are still free are tracked. */
  lemma NewIsProper(b: Builder, s: State, s': State, id: nat, track: Tracked)
    requires Alive(b, s, track) && b.next <= id
    ensures Proper(s', Variant(id), track) && Tracks(track, id)
  {
  }

  lemma ProperKept(s: State, s': State, o: Operand, track: Tracked)
    requires Proper(s, o, track) && RootOf(s', o) == RootOf(s, o)
    ensures Proper(s', o, track)
  {
  }

  lemma CountsKeptTrans(a: Builder, b: Builder, c: Builder)
    requires CountsKept(a, b) && CountsKept(b, c)
    ensures CountsKept(a, c)
  {
  }

  /** The same state, except that storage may have been used after its end. */
  predicate Touched(s: State, t: State) {
    t == s.(dangling := t.dangling)
  }

  /** Using two operands. */
  predicate Uses2(s: State, s': State, l: Operand, r: Operand) {
    s'.dangling == (s.dangling || !Usable(s, l) || !Usable(s, r))
  }

  predicate UsesAll(s: State, s': State, vs: seq<Operand>) {
    s'.dangling == (s.dangling || !AllUsable(s, vs))
  }

  lemma TouchesBoth(s: State, l: Operand, r: Operand)
    ensures var t := Touch(Touch(s, l), r); Touched(s, t) && Uses2(s, t, l, r)
    ensures var t := Touch(s, l); Touched(s, t) && Uses2(s, t, l, l)
  {
  }

  lemma UsesWrapped(s: State, s1: State, s': State, l: Operand, l': Operand, r: Operand, r': Operand)
    requires StorageKept(s, s1, l, l') && StorageKept(s, s1, r, r') && Uses2(s1, s', l', r')
    ensures Uses2(s, s', l, r)
  {
    hide Usable;
  }

  /** What a checked call that creates a temporary leaves behind. */
  lemma CreatesTemporary(b: Builder, b': Builder, s: State, ok: nat, dst: nat, z: Value, track: Tracked)
    requires Alive(b, s, track)
    requires b.next <= ok < dst < b'.next && b'.refs == b.refs
    ensures var s' := Create(Store(s, ok, Bool(true), None), dst, z);
            && Alive(SetRef(b', Variant(dst), 1), s', track) && AgreeBelow(s, s', b.next) && s'.out == s.out
            && ValueOf(s', Variant(dst)) == Some(z) && s'.dangling == s.dangling
            && ValueOf(s', Reg(ok, I1)) == Some(Bool(true))
  {
    AliveStore(b, Fresh(b, ok + 1 - b.next), s, ok, Bool(true), None, track);
    AliveCreate(Fresh(b, ok + 1 - b.next), b', Store(s, ok, Bool(true), None), dst, z, track);
  }

  lemma CheckedFails(m: Machine, b: Builder, ok: nat, call: Instr, s: State, t: State, c: Computed, track: Tracked)
    requires Open(b) && Within(CheckedCall(b, ok, call), m) && Alive(b, s, track)
    requires Touched(s, t) && Exec(m, call, s) == Some(Store(t, ok, Bool(false), None))
    ensures Computes(m, b, s, c, Store(t, ok, Bool(false), None), None, track)
    ensures Store(t, ok, Bool(false), None).dangling == t.dangling
  {
    hide Exec, Reaches, CheckedCall, Within, Open;
    CheckedCallRuns(m, b, ok, call, s, Store(t, ok, Bool(false), None), false);
  }

  lemma CheckedCreates(m: Machine, b: Builder, ok: nat, dst: nat, call: Instr, s: State, t: State, z: Value,
                       track: Tracked)
    returns (s': State)
    requires Open(b) && Touched(s, t) && Alive(b, s, track) && b.next == ok && dst == ok + 1
    requires Exec(m, call, s) == Some(Create(Store(t, ok, Bool(true), None), dst, z))
    requires Within(CheckedCall(b, ok, call), m)
    ensures Computes(m, b, s, Computed(Variant(dst), SetRef(CheckedCall(b, ok, call), Variant(dst), 1)), s', Some(z),
                     track)
    ensures s'.dangling == t.dangling
  {
    var b1 := CheckedCall(b, ok, call);
    var b2 := SetRef(b1, Variant(dst), 1);
    s' := Create(Store(t, ok, Bool(true), None), dst, z);
    hide Exec, Reaches, Alive, Within, Open, CheckedCall, Create, Store, End, RootOf, ValueOf, AgreeBelow;
    SetRefStays(b1, Variant(dst), 1, s', m);
    CheckedCallKeeps(b, ok, call);
    TouchedAlive(b, s, t, track);
    CreatesTemporary(b, b1, t, ok, dst, z, track);
    TouchedAgrees(s, t, s', b.next);
    CheckedCallRuns(m, b, ok, call, s, s', true);
    OneReference(b1, dst);
    NewIsProper(b, s, s', dst, track);
  }

  /** A computed value stays computed when something else is released. */
  lemma ReleaseAfter(m: Machine, b: Builder, s: State, v: Operand, b2: Builder, s2: State, x: Value, released: Operand,
                     track: Tracked)
    returns (s': State)
    requires Computes(m, b, s, Computed(v, b2), s2, Some(x), track) && Open(b2)
    requires released.Reg? && released.ty.VariantPtr? && Tracks(track, released.id)
    requires GoesOutOfScope(b2, released).Ok? && Within(GoesOutOfScope(b2, released).value, m)
    ensures Computes(m, b, s, Computed(v, GoesOutOfScope(b2, released).value), s', Some(x), track) && s'.regs == s2.regs
    ensures s'.dangling == s2.dangling && (b2.refs[released] == 1 ==> released.id !in s'.live)
  {
    hide Reaches, Alive, Within, Open, GoesOutOfScope, End, ValueOf, RootOf, AgreeBelow, Counted;
    var b3 := GoesOutOfScope(b2, released).value;
    s' := ReleaseRuns(m, b2, released, s2, track);
    ReachesTrans(m, End(b, s), End(b2, s2), End(b3, s'));
    SameRegs(s2, s', v, b.next);
    AgreeTrans(s, s2, s', b.next, b.next);
  }

  lemma BothReleaseAfter(m: Machine, b: Builder, s: State, v: Operand, b2: Builder, s2: State, x: Value, l: Operand,
                         r: Operand, track: Tracked)
    returns (s': State)
    requires Computes(m, b, s, Computed(v, b2), s2, Some(x), track) && Open(b2)
    requires l.Reg? && l.ty.VariantPtr? && r.Reg? && r.ty.VariantPtr? && Tracks(track, l.id) && Tracks(track, r.id)
    requires BothGoOutOfScope(b2, l, r).Ok? && Within(BothGoOutOfScope(b2, l, r).value, m)
    ensures Computes(m, b, s, Computed(v, BothGoOutOfScope(b2, l, r).value), s', Some(x), track)
    ensures s'.dangling == s2.dangling
  {
    hide Reaches, Alive, Within, Open, BothGoOutOfScope, End, ValueOf, RootOf, AgreeBelow, Counted;
    var b3 := BothGoOutOfScope(b2, l, r).value;
    s' := BothReleaseRuns(m, b2, l, r, s2, track);
    ReachesTrans(m, End(b, s), End(b2, s2), End(b3, s'));
    SameRegs(s2, s', v, b.next);
    AgreeTrans(s, s2, s', b.next, b.next);
  }

  lemma TouchedAlive(b: Builder, s: State, t: State, track: Tracked)
    requires Touched(s, t)
    ensures Alive(b, t, track) <==> Alive(b, s, track)
  {
  }

  lemma TouchedAgrees(s: State, t: State, s': State, n: nat)
    requires Touched(s, t) && AgreeBelow(t, s', n)
    ensures AgreeBelow(s, s', n) && t.out == s.out
  {
  }

  lemma OneReference(b: Builder, id: nat)
    ensures Counted(SetRef(b, Variant(id), 1), id) && Single(Computed(Variant(id), SetRef(b, Variant(id), 1)))
  {
  }

  /** Releasing something else. */
  lemma StaysSingle(b: Builder, v: Operand, l: Operand, r: Operand)
    requires Single(Computed(v, b)) && l != v && r != v
    ensures GoesOutOfScope(b, l).Ok? ==> Single(Computed(v, GoesOutOfScope(b, l).value))
    ensures BothGoOutOfScope(b, l, r).Ok? ==> Single(Computed(v, BothGoOutOfScope(b, l, r).value))
  {
  }

  lemma VariantBinaryRuns(m: Machine, b: Builder, op: BinaryOp, l: Operand, r: Operand, s: State, x: Value, y: Value,
                          track: Tracked)
    returns (s': State)
    requires Open(b) && VariantBinary(b, op, l, r).Ok? && Within(VariantBinary(b, op, l, r).value.b, m)
    requires Operands(b, s, l, x, r, y, track)
    ensures Computes(m, b, s, VariantBinary(b, op, l, r).value, s', m.h.binary(op, x, y), track)
    ensures Uses2(s, s', l, r) && (m.h.binary(op, x, y).Some? ==> Single(VariantBinary(b, op, l, r).value))
  {
    hide *;
    BinaryUnfolds(b, op, l, r);
    var w := WrapBoth(b, l, r);
    var c := VariantBinary(b, op, l, r).value;
    BinaryStages(m, b, op, l, r);
    var s1 := WrapBothRuns(m, b, l, r, s, x, y, track);
    WrapsBothParts(m, b, s, w, s1, x, y, track);
    s' := BinaryOnVariants(m, w.b, op, w.l, w.r, s1, x, y, c, track);
    UsesWrapped(s, s1, s', l, w.l, r, w.r);
    ComputesAfter(m, b, s, w.b, s1, c, s', m.h.binary(op, x, y), track);
  }

  lemma BinaryUnfolds(b: Builder, op: BinaryOp, l: Operand, r: Operand)
    requires VariantBinary(b, op, l, r).Ok?
    ensures var w := WrapBoth(b, l, r);
            var ok, dst := w.b.next, w.b.next + 1;
            && BothGoOutOfScope(SetRef(CheckedCall(w.b, ok, CallBinary(ok, dst, op, w.l, w.r)), Variant(dst), 1), w.l,
                                w.r) == Ok(VariantBinary(b, op, l, r).value.b)
            && VariantBinary(b, op, l, r).value.v == Variant(dst)
  {
    hide WrapBoth, CheckedCall, BothGoOutOfScope;
  }

  lemma BinaryStages(m: Machine, b: Builder, op: BinaryOp, l: Operand, r: Operand)
    requires Open(b) && VariantBinary(b, op, l, r).Ok? && Within(VariantBinary(b, op, l, r).value.b, m)
    ensures var w := WrapBoth(b, l, r);
            var ok, dst := w.b.next, w.b.next + 1;
            var call := CallBinary(ok, dst, op, w.l, w.r);
            && Open(w.b) && Within(w.b, m) && Within(CheckedCall(w.b, ok, call), m)
  {
    hide *;
    var w := WrapBoth(b, l, r);
    var ok, dst := w.b.next, w.b.next + 1;
    BinaryUnfolds(b, op, l, r);
    WrapBothStage(m, b, l, r);
    CheckedResultStage(m, w.b, ok, dst, CallBinary(ok, dst, op, w.l, w.r), w.l, w.r);
  }

  lemma CheckedResultStage(m: Machine, b: Builder, ok: nat, dst: nat, call: Instr, l: Operand, r: Operand)
    requires Open(b) && BothGoOutOfScope(SetRef(CheckedCall(b, ok, call), Variant(dst), 1), l, r).Ok?
    requires Within(BothGoOutOfScope(SetRef(CheckedCall(b, ok, call), Variant(dst), 1), l, r).value, m)
    ensures Within(b, m) && Within(CheckedCall(b, ok, call), m)
  {
    hide Within, Open, CheckedCall, BothGoOutOfScope;
    CheckedCallStage(m, b, ok, call);
    SetRefStays(CheckedCall(b, ok, call), Variant(dst), 1, State(map[], "", {}, false, false), m);
    BothReleaseStage(m, SetRef(CheckedCall(b, ok, call), Variant(dst), 1), l, r);
  }

  lemma BinaryOnVariants(m: Machine, b: Builder, op: BinaryOp, l: Operand, r: Operand, s: State, x: Value, y: Value,
                         c: Computed, track: Tracked)
    returns (s': State)
    requires l.Reg? && l.ty.VariantPtr? && r.Reg? && r.ty.VariantPtr? && Operands(b, s, l, x, r, y, track) && Open(b)
    requires var call := CallBinary(b.next, b.next + 1, op, l, r);
             && Within(CheckedCall(b, b.next, call), m) && Within(c.b, m)
             && BothGoOutOfScope(SetRef(CheckedCall(b, b.next, call), Variant(b.next + 1), 1), l, r) == Ok(c.b)
                && c.v == Variant(b.next + 1)
    ensures Computes(m, b, s, c, s', m.h.binary(op, x, y), track)
    ensures Uses2(s, s', l, r) && (m.h.binary(op, x, y).Some? ==> Single(c))
  {
    hide *;
    OperandsParts(b, s, l, x, r, y, track);
    var ok, dst := b.next, b.next + 1;
    var call := CallBinary(ok, dst, op, l, r);
    var t := Touch(Touch(s, l), r);
    TouchesBoth(s, l, r);
    BinaryExec(m, ok, dst, op, l, r, s, x, y);
    if m.h.binary(op, x, y).None? {
      s' := Store(t, ok, Bool(false), None);
      CheckedFails(m, b, ok, call, s, t, c, track);
      SameDangling(s, t, s', l, r);
    } else {
      var z := m.h.binary(op, x, y).value;
      var b1 := CheckedCall(b, ok, call);
      var s2 := CheckedCreates(m, b, ok, dst, call, s, t, z, track);
      CheckedCallStage(m, b, ok, call);
      SetRefStays(b1, Variant(dst), 1, s2, m);
      s' := BothReleaseAfter(m, b, s, Variant(dst), SetRef(b1, Variant(dst), 1), s2, z, l, r, track);
      OneReference(b1, dst);
      NewVariant(dst);
      StaysSingle(SetRef(b1, Variant(dst), 1), Variant(dst), l, r);
      ComputedIs(c);
      SameDangling(s, t, s', l, r);
    }
  }

  lemma NewVariant(id: nat)
    ensures Variant(id).Reg? && Variant(id).id == id
  {
  }

  lemma ComputedIs(c: Computed)
    ensures c == Computed(c.v, c.b)
  {
  }

  lemma SameDangling(s: State, t: State, s': State, l: Operand, r: Operand)
    requires Uses2(s, t, l, r) && s'.dangling == t.dangling
    ensures Uses2(s, s', l, r)
  {
  }

  lemma BinaryExec(m: Machine, ok: nat, dst: nat, op: BinaryOp, l: Operand, r: Operand, s: State, x: Value, y: Value)
    requires ValueOf(s, l) == Some(x) && ValueOf(s, r) == Some(y)
    ensures var t := Touch(Touch(s, l), r);
            Exec(m, CallBinary(ok, dst, op, l, r), s)
            == Some(if m.h.binary(op, x, y).None? then Store(t, ok, Bool(false), None)
                    else Create(Store(t, ok, Bool(true), None), dst, m.h.binary(op, x, y).value))
  {
  }

  // ---------- Comparisons and unary operations ----------

  lemma CheckedStores(m: Machine, b: Builder, ok: nat, dst: nat, call: Instr, s: State, t: State, z: Value,
                      track: Tracked)
    returns (s': State)
    requires Open(b) && Touched(s, t) && Alive(b, s, track) && b.next == ok && dst == ok + 1
    requires Exec(m, call, s) == Some(Store(Store(t, ok, Bool(true), None), dst, z, None))
    requires Within(CheckedCall(b, ok, call), m)
    ensures Computes(m, b, s, Computed(Reg(dst, I1), CheckedCall(b, ok, call)), s', Some(z), track)
    ensures s'.dangling == t.dangling
  {
    var b1 := CheckedCall(b, ok, call);
    s' := Store(Store(t, ok, Bool(true), None), dst, z, None);
    hide Exec, Reaches, Within, Open, CheckedCall, End;
    CheckedCallKeeps(b, ok, call);
    AliveStore(b, Fresh(b, 1), s, ok, Bool(true), None, track);
    AliveStore(Fresh(b, 1), b1, Store(s, ok, Bool(true), None), dst, z, None, track);
    CheckedCallRuns(m, b, ok, call, s, s', true);
  }

  lemma ComparisonUnfolds(b: Builder, op: ComparisonOp, l: Operand, r: Operand)
    requires VariantComparison(b, op, l, r).Ok?
    ensures var w := WrapBoth(b, l, r);
            var ok, dst := w.b.next, w.b.next + 1;
            && BothGoOutOfScope(CheckedCall(w.b, ok, CallCompare(ok, dst, op, w.l, w.r)), w.l, w.r)
               == Ok(VariantComparison(b, op, l, r).value.b)
            && VariantComparison(b, op, l, r).value.v == Reg(dst, I1)
  {
    hide WrapBoth, CheckedCall, BothGoOutOfScope;
  }

  lemma CompareExec(m: Machine, ok: nat, dst: nat, op: ComparisonOp, l: Operand, r: Operand, s: State, x: Value,
                    y: Value)
    requires ValueOf(s, l) == Some(x) && ValueOf(s, r) == Some(y)
    ensures var t := Touch(Touch(s, l), r);
            Exec(m, CallCompare(ok, dst, op, l, r), s)
            == Some(if m.h.compare(op, x, y).None? then Store(t, ok, Bool(false), None)
                    else Store(Store(t, ok, Bool(true), None), dst, Bool(m.h.compare(op, x, y).value), None))
  {
  }

  function BoolOf(c: Option<bool>): Option<Value> {
    if c.None? then None else Some(Bool(c.value))
  }

  lemma BoolOfParts(c: Option<bool>)
    ensures BoolOf(c) == if c.None? then None else Some(Bool(c.value))
  {
  }

  lemma CompareOnVariants(m: Machine, b: Builder, op: ComparisonOp, l: Operand, r: Operand, s: State, x: Value,
                          y: Value, c: Computed, track: Tracked)
    returns (s': State)
    requires l.Reg? && l.ty.VariantPtr? && r.Reg? && r.ty.VariantPtr? && Operands(b, s, l, x, r, y, track) && Open(b)
    requires var b1 := CheckedCall(b, b.next, CallCompare(b.next, b.next + 1, op, l, r));
             && Within(b1, m) && Within(c.b, m)
             && BothGoOutOfScope(b1, l, r) == Ok(c.b) && c.v == Reg(b.next + 1, I1)
    ensures Computes(m, b, s, c, s', BoolOf(m.h.compare(op, x, y)), track)
    ensures Uses2(s, s', l, r)
  {
    hide *;
    OperandsParts(b, s, l, x, r, y, track);
    var ok, dst := b.next, b.next + 1;
    var call := CallCompare(ok, dst, op, l, r);
    var t := Touch(Touch(s, l), r);
    TouchesBoth(s, l, r);
    CompareExec(m, ok, dst, op, l, r, s, x, y);
    BoolOfParts(m.h.compare(op, x, y));
    if m.h.compare(op, x, y).None? {
      s' := Store(t, ok, Bool(false), None);
      CheckedFails(m, b, ok, call, s, t, c, track);
      SameDangling(s, t, s', l, r);
    } else {
      var z := Bool(m.h.compare(op, x, y).value);
      var s2 := CheckedStores(m, b, ok, dst, call, s, t, z, track);
      CheckedCallStage(m, b, ok, call);
      s' := BothReleaseAfter(m, b, s, Reg(dst, I1), CheckedCall(b, ok, call), s2, z, l, r, track);
      SameDangling(s, t, s', l, r);
    }
  }

  lemma VariantComparisonRuns(m: Machine, b: Builder, op: ComparisonOp, l: Operand, r: Operand, s: State, x: Value,
                              y: Value, track: Tracked)
    returns (s': State)
    requires Open(b) && VariantComparison(b, op, l, r).Ok? && Within(VariantComparison(b, op, l, r).value.b, m)
    requires Operands(b, s, l, x, r, y, track)
    ensures Computes(m, b, s, VariantComparison(b, op, l, r).value, s', BoolOf(m.h.compare(op, x, y)), track)
    ensures Uses2(s, s', l, r)
  {
    hide *;
    ComparisonUnfolds(b, op, l, r);
    var w := WrapBoth(b, l, r);
    var c := VariantComparison(b, op, l, r).value;
    var call := CallCompare(w.b.next, w.b.next + 1, op, w.l, w.r);
    WrapBothStage(m, b, l, r);
    CheckedCallStage(m, w.b, w.b.next, call);
    BothReleaseStage(m, CheckedCall(w.b, w.b.next, call), w.l, w.r);
    var s1 := WrapBothRuns(m, b, l, r, s, x, y, track);
    WrapsBothParts(m, b, s, w, s1, x, y, track);
    s' := CompareOnVariants(m, w.b, op, w.l, w.r, s1, x, y, c, track);
    UsesWrapped(s, s1, s', l, w.l, r, w.r);
    ComputesAfter(m, b, s, w.b, s1, c, s', BoolOf(m.h.compare(op, x, y)), track);
  }

  lemma UnaryUnfolds(b: Builder, op: UnaryOp, v: Operand)
    requires VariantUnary(b, op, v).Ok?
    ensures var ok, dst := b.next, b.next + 1;
            && GoesOutOfScope(SetRef(CheckedCall(b, ok, CallUnary(ok, dst, op, v)), Variant(dst), 1), v)
               == Ok(VariantUnary(b, op, v).value.b)
            && VariantUnary(b, op, v).value.v == Variant(dst)
  {
    hide CheckedCall, GoesOutOfScope;
  }

  lemma UnaryExec(m: Machine, ok: nat, dst: nat, op: UnaryOp, v: Operand, s: State, x: Value)
    requires ValueOf(s, v) == Some(x)
    ensures var t := Touch(s, v);
            Exec(m, CallUnary(ok, dst, op, v), s)
            == Some(if m.h.unary(op, x).None? then Store(t, ok, Bool(false), None)
                    else Create(Store(t, ok, Bool(true), None), dst, m.h.unary(op, x).value))
  {
  }

  lemma VariantUnaryRuns(m: Machine, b: Builder, op: UnaryOp, v: Operand, s: State, x: Value, track: Tracked)
    returns (s': State)
    requires Open(b) && VariantUnary(b, op, v).Ok? && Within(VariantUnary(b, op, v).value.b, m)
    requires Operands(b, s, v, x, v, x, track) && v.Reg? && v.ty.VariantPtr?
    ensures Computes(m, b, s, VariantUnary(b, op, v).value, s', m.h.unary(op, x), track)
    ensures Uses2(s, s', v, v) && (m.h.unary(op, x).Some? ==> Single(VariantUnary(b, op, v).value))
  {
    UnaryUnfolds(b, op, v);
    var ok, dst := b.next, b.next + 1;
    var call := CallUnary(ok, dst, op, v);
    var c := VariantUnary(b, op, v).value;
    var t := Touch(s, v);
    TouchesBoth(s, v, v);
    UnaryExec(m, ok, dst, op, v, s, x);
    hide Exec, Within, Open, CheckedCall, GoesOutOfScope, Computes, Alive, Touch, Store, Create, RootOf, VariantUnary,
         Proper;
    var b1 := CheckedCall(b, ok, call);
    CheckedCallStage(m, b, ok, call);
    SetRefStays(b1, Variant(dst), 1, s, m);
    ReleaseStage(m, SetRef(b1, Variant(dst), 1), v);
    if m.h.unary(op, x).None? {
      s' := Store(t, ok, Bool(false), None);
      CheckedFails(m, b, ok, call, s, t, c, track);
      SameDangling(s, t, s', v, v);
    } else {
      var z := m.h.unary(op, x).value;
      var s2 := CheckedCreates(m, b, ok, dst, call, s, t, z, track);
      s' := ReleaseAfter(m, b, s, Variant(dst), SetRef(b1, Variant(dst), 1), s2, z, v, track);
      OneReference(b1, dst);
      StaysSingle(SetRef(b1, Variant(dst), 1), Variant(dst), v, v);
      SameDangling(s, t, s', v, v);
    }
  }

  // ---------- Lookups and method calls ----------

  lemma VariableLookupRuns(m: Machine, b: Builder, name: string, s: State, track: Tracked) returns (s': State)
    requires Open(b) && Within(VariableLookup(b, name).b, m) && Alive(b, s, track)
    ensures Computes(m, b, s, VariableLookup(b, name), s', Some(m.data(name)), track)
    ensures RootOf(s', VariableLookup(b, name).v) == None && s'.dangling == s.dangling
  {
    var i := CallLookup(b.next, name);
    var b1 := Emit(Fresh(b, 1), i);
    s' := Store(s, b.next, m.data(name), None);
    assert Exec(m, i, s) == Some(s');
    hide Exec, Reaches, Alive, Within, Open, Store, Emit;
    SetRefStays(b1, Variant(b.next), -1, s', m);
    StoreRuns(m, b, 1, i, s, b.next, m.data(name), None);
    EmitCounts(b, 1, i);
    FreshIsUncounted(b, s, track);
    AliveStore(b, b1, s, b.next, m.data(name), None, track);
    AliveUncounted(b1, s', b.next, track);
  }

  lemma FreshIsUncounted(b: Builder, s: State, track: Tracked)
    requires Alive(b, s, track)
    ensures !Counted(b, b.next)
  {
  }

  lemma AttributeParts(b: Builder, name: string, base: Operand)
    requires AttributeLookup(b, name, base).Ok?
    ensures GoesOutOfScope(SetRef(Emit(Fresh(b, 1), CallAttribute(b.next, base, name)), Variant(b.next), -1), base)
            == Ok(AttributeLookup(b, name, base).value.b)
    ensures AttributeLookup(b, name, base).value.v == Variant(b.next)
  {
    hide GoesOutOfScope;
  }

  /** An attribute that is there lives in the storage of its base. */
  lemma AttributeLookupRuns(m: Machine, b: Builder, name: string, base: Operand, s: State, x: Value, track: Tracked)
    returns (s': State)
    requires Open(b) && AttributeLookup(b, name, base).Ok? && Within(AttributeLookup(b, name, base).value.b, m)
    requires Operands(b, s, base, x, base, x, track) && base.Reg? && base.ty.VariantPtr?
    ensures Computes(m, b, s, AttributeLookup(b, name, base).value, s', Some(GetAttribute(x, name)), track)
    ensures RootOf(s', AttributeLookup(b, name, base).value.v)
            == if HasAttribute(x, name) then RootOf(s, base) else None
    ensures Uses2(s, s', base, base) && (base in b.refs && b.refs[base] == 1 ==> base.id !in s'.live)
  {
    AttributeParts(b, name, base);
    var i := CallAttribute(b.next, base, name);
    var t := Touch(s, base);
    var z := GetAttribute(x, name);
    var c := AttributeLookup(b, name, base).value;
    var b1 := Emit(Fresh(b, 1), i);
    var root := if HasAttribute(x, name) then RootOf(s, base) else None;
    var s1 := Store(t, b.next, z, root);
    assert Exec(m, i, s) == Some(s1);
    TouchesBoth(s, base, base);
    hide Exec, Reaches, Within, Open, Emit, GoesOutOfScope, AttributeLookup, GetAttribute;
    EmitCounts(b, 1, i);
    OpenEmit(Fresh(b, 1), i);
    FreshStays(b, 1, s, m);
    SetRefStays(b1, Variant(b.next), -1, s1, m);
    ReleaseStage(m, SetRef(b1, Variant(b.next), -1), base);
    EmitRuns(m, Fresh(b, 1), i, s, s1);
    AttributeStored(b, b1, s, t, z, root, track);
    s' := ReleaseAfter(m, b, s, Variant(b.next), SetRef(b1, Variant(b.next), -1), s1, z, base, track);
  }

  lemma AttributeStored(b: Builder, b1: Builder, s: State, t: State, z: Value, root: Option<nat>, track: Tracked)
    requires Touched(s, t) && b1.refs == b.refs && b1.next == b.next + 1 && Alive(b, s, track)
    ensures var s1 := Store(t, b.next, z, root);
            var v := Variant(b.next);
            && s1.out == s.out && AgreeBelow(s, s1, b.next) && ValueOf(s1, v) == Some(z) && RootOf(s1, v) == root
            && Alive(SetRef(b1, v, -1), s1, track)
  {
    FreshIsUncounted(b, s, track);
    TouchedAlive(b, s, t, track);
    AliveStore(b, b1, t, b.next, z, root, track);
    AliveUncounted(b1, Store(t, b.next, z, root), b.next, track);
  }

  /** Computed arguments. */
  ghost predicate Args(b: Builder, s: State, vs: seq<Operand>, xs: seq<Value>, track: Tracked) {
    && |vs| == |xs|
    && forall i :: 0 <= i < |vs| ==> Operands(b, s, vs[i], xs[i], vs[i], xs[i], track)
  }

  lemma ArgsKept(b: Builder, b': Builder, s: State, s': State, vs: seq<Operand>, xs: seq<Value>, track: Tracked)
    requires Args(b, s, vs, xs, track) && AgreeBelow(s, s', b.next) && b.next <= b'.next
    requires Alive(b', s', track) && CountsKept(b, b')
    ensures Args(b', s', vs, xs, track)
  {
    forall i | 0 <= i < |vs|
      ensures Operands(b', s', vs[i], xs[i], vs[i], xs[i], track)
    {
      hide Alive, CountsKept, AgreeBelow, ValueOf, RootOf;
      OperandKept(s, s', b.next, vs[i]);
      ProperKept(s, s', vs[i], track);
    }
  }

  lemma {:induction false} ArgsValues(b: Builder, s: State, vs: seq<Operand>, xs: seq<Value>, track: Tracked)
    requires Args(b, s, vs, xs, track)
    ensures ValuesOf(s, vs) == Some(xs)
    decreases vs
  {
    if vs != [] {
      assert Args(b, s, vs[1..], xs[1..], track) by {
        forall i | 0 <= i < |vs[1..]|
          ensures Operands(b, s, vs[1..][i], xs[1..][i], vs[1..][i], xs[1..][i], track)
        {
          assert vs[1..][i] == vs[i + 1] && xs[1..][i] == xs[i + 1];
        }
      }
      ArgsValues(b, s, vs[1..], xs[1..], track);
      assert Operands(b, s, vs[0], xs[0], vs[0], xs[0], track);
      assert [xs[0]] + xs[1..] == xs;
    }
  }

  lemma ArgsTail(b: Builder, s: State, vs: seq<Operand>, xs: seq<Value>, track: Tracked)
    requires Args(b, s, vs, xs, track) && vs != []
    ensures Args(b, s, vs[1..], xs[1..], track) && Operands(b, s, vs[0], xs[0], vs[0], xs[0], track)
  {
    hide Operands;
  }

  lemma ArgsCons(b: Builder, s: State, v: Operand, x: Value, vs: seq<Operand>, xs: seq<Value>, track: Tracked)
    requires Args(b, s, vs, xs, track) && Operands(b, s, v, x, v, x, track)
    ensures Args(b, s, [v] + vs, [x] + xs, track)
  {
    hide Operands;
  }

  lemma OperandsKept(b: Builder, b': Builder, s: State, s': State, v: Operand, x: Value, track: Tracked)
    requires Operands(b, s, v, x, v, x, track) && AgreeBelow(s, s', b.next) && b.next <= b'.next
    requires Alive(b', s', track) && CountsKept(b, b')
    ensures Operands(b', s', v, x, v, x, track)
  {
    hide Alive, CountsKept, AgreeBelow, ValueOf, RootOf;
    OperandKept(s, s', b.next, v);
    ProperKept(s, s', v, track);
  }

  lemma IsOperand(b: Builder, s: State, v: Operand, x: Value, track: Tracked)
    requires ValueOf(s, v) == Some(x) && OperandBelow(v, b.next) && (Alive(b, s, track) && Proper(s, v, track))
    ensures Operands(b, s, v, x, v, x, track)
  {
  }

  ghost predicate WrapsAll(m: Machine, b: Builder, s: State, vs: seq<Operand>, ws: Arguments, s': State,
                           xs: seq<Value>, track: Tracked) {
    && Open(ws.b) && b.next <= ws.b.next
    && Reaches(m, End(b, s), End(ws.b, s')) && s'.out == s.out && AgreeBelow(s, s', b.next)
    && Args(ws.b, s', ws.vs, xs, track)
    && (Alive(ws.b, s', track) && CountsKept(b, ws.b))
    && s'.live == s.live && s'.dangling == s.dangling && (AllUsable(s', ws.vs) <==> AllUsable(s, vs))
  }

  lemma {:induction false} WrapAllStage(m: Machine, b: Builder, vs: seq<Operand>)
    requires Open(b)
    ensures var b' := WrapAll(b, vs).b; Open(b') && (Within(b', m) ==> Within(b, m))
    decreases vs
  {
    hide Within, Open, WrapAsVariant;
    if vs != [] {
      WrapOpen(b, vs[0], m);
      WrapAllStage(m, WrapAsVariant(b, vs[0]).b, vs[1..]);
    }
  }

  lemma {:induction false} WrapAllRuns(m: Machine, b: Builder, vs: seq<Operand>, s: State, xs: seq<Value>,
                                       track: Tracked)
    returns (s': State)
    requires Open(b) && Within(WrapAll(b, vs).b, m) && Args(b, s, vs, xs, track) && Alive(b, s, track)
    ensures WrapsAll(m, b, s, vs, WrapAll(b, vs), s', xs, track)
    decreases vs
  {
    if vs == [] {
      s' := s;
      ReachesSelf(m, End(b, s));
    } else {
      hide Args, Reaches, Alive, Within, Open, WrapAsVariant, Proper, CountsKept, Operands, End, AgreeBelow, ValueOf,
           Computes, WrapsAll;
      var w := WrapAsVariant(b, vs[0]);
      ArgsTail(b, s, vs, xs, track);
      WrapOpen(b, vs[0], m);
      WrapAllStage(m, w.b, vs[1..]);
      var s1 := WrapRuns(m, b, vs[0], s, xs[0], track);
      ComputedParts(m, b, s, w, s1, xs[0], track);
      ArgsKept(b, w.b, s, s1, vs[1..], xs[1..], track);
      s' := WrapAllRuns(m, w.b, vs[1..], s1, xs[1..], track);
      IsOperand(w.b, s1, w.v, xs[0], track);
      ArgsLength(b, s, vs, xs, track);
      WrapsCons(m, b, s, vs, w, s1, WrapAll(w.b, vs[1..]), s', xs[0], xs[1..], track);
      assert [xs[0]] + xs[1..] == xs;
    }
  }

  lemma ArgsLength(b: Builder, s: State, vs: seq<Operand>, xs: seq<Value>, track: Tracked)
    requires Args(b, s, vs, xs, track)
    ensures |xs| == |vs|
  {
  }

  lemma ComputedParts(m: Machine, b: Builder, s: State, c: Computed, s': State, x: Value, track: Tracked)
    requires Computes(m, b, s, c, s', Some(x), track)
    ensures s'.out == s.out && Reaches(m, End(b, s), End(c.b, s')) && AgreeBelow(s, s', b.next)
    ensures ValueOf(s', c.v) == Some(x)
    ensures Alive(c.b, s', track) && Proper(s', c.v, track)
  {
    hide Reaches, End, AgreeBelow, ValueOf, Alive, Proper;
  }

  lemma WrapsCons(m: Machine, b: Builder, s: State, vs: seq<Operand>, w: Computed, s1: State, ws: Arguments, s2: State,
                  x: Value, xs: seq<Value>, track: Tracked)
    requires s1.out == s.out && Reaches(m, End(b, s), End(w.b, s1)) && AgreeBelow(s, s1, b.next)
    requires b.next <= w.b.next && Operands(w.b, s1, w.v, x, w.v, x, track) && CountsKept(b, w.b)
    requires vs != [] && Args(b, s, vs[1..], xs, track) && StorageKept(s, s1, vs[0], w.v)
    requires WrapsAll(m, w.b, s1, vs[1..], ws, s2, xs, track)
    ensures WrapsAll(m, b, s, vs, Arguments([w.v] + ws.vs, ws.b), s2, [x] + xs, track)
  {
    hide Args, Reaches, End, Operands, AgreeBelow, Alive, CountsKept, Open, AllUsable, Usable;
    OperandsKept(w.b, ws.b, s1, s2, w.v, x, track);
    ArgsCons(ws.b, s2, w.v, x, ws.vs, xs, track);
    ReachesTrans(m, End(b, s), End(w.b, s1), End(ws.b, s2));
    AgreeTrans(s, s1, s2, b.next, w.b.next);
    CountsKeptTrans(b, w.b, ws.b);
    AllUsableKept(b, s, s1, vs[1..], xs, track);
    StillUsable(w.b, s1, s2, w.v, x, track);
    assert vs == [vs[0]] + vs[1..];
    AllUsableCons(s, vs[0], vs[1..]);
    AllUsableCons(s2, w.v, ws.vs);
  }

  lemma AllUsableCons(s: State, v: Operand, vs: seq<Operand>)
    ensures AllUsable(s, [v] + vs) <==> Usable(s, v) && AllUsable(s, vs)
  {
    hide Usable;
    if AllUsable(s, [v] + vs) {
      assert v in [v] + vs;
      forall o | o in vs
        ensures Usable(s, o)
      {
        assert o in [v] + vs;
      }
    }
  }

  lemma StillUsable(b: Builder, s: State, s': State, v: Operand, x: Value, track: Tracked)
    requires Operands(b, s, v, x, v, x, track) && AgreeBelow(s, s', b.next) && s'.live == s.live
    ensures Usable(s', v) <==> Usable(s, v)
  {
    hide Alive;
  }

  lemma AllUsableKept(b: Builder, s: State, s': State, vs: seq<Operand>, xs: seq<Value>, track: Tracked)
    requires Args(b, s, vs, xs, track) && AgreeBelow(s, s', b.next) && s'.live == s.live
    ensures AllUsable(s', vs) <==> AllUsable(s, vs)
  {
    forall o | o in vs
      ensures Usable(s', o) <==> Usable(s, o)
    {
      hide Operands, AgreeBelow, Usable;
      var i :| 0 <= i < |vs| && vs[i] == o;
      StillUsable(b, s, s', vs[i], xs[i], track);
    }
  }

  lemma MethodUnfolds(b: Builder, name: string, vs: seq<Operand>)
    ensures var ws := WrapAll(b, vs);
            var dst, ok := ws.b.next, ws.b.next + 1;
            var b1 := SetRef(Emit(Fresh(ws.b, 2), CallMethod(dst, name, ws.vs)), Variant(dst), 1);
            MethodCall(b, name, vs)
              == Ok(Computed(Variant(dst), ReturnIfFails(Emit(b1, NotNull(ok, dst)), Reg(ok, I1))))
  {
    hide WrapAll, Emit, ReturnIfFails;
  }

  lemma MethodExec(m: Machine, dst: nat, name: string, vs: seq<Operand>, s: State, xs: seq<Value>)
    requires ValuesOf(s, vs) == Some(xs)
    ensures var t := s.(dangling := s.dangling || !AllUsable(s, vs));
            Exec(m, CallMethod(dst, name, vs), s)
            == Some(if m.h.call(name, xs).None? then t.(regs := t.regs[dst := Slot(NullPtr, None)])
                    else Create(t, dst, m.h.call(name, xs).value))
  {
  }

  /** do_method_call, the test of its result, and the early return. */
  lemma CallOnVariants(m: Machine, b: Builder, name: string, vs: seq<Operand>, s: State, xs: seq<Value>, c: Computed,
                       track: Tracked)
    returns (s': State)
    requires Open(b) && Args(b, s, vs, xs, track) && Alive(b, s, track)
    requires var b1 := SetRef(Emit(Fresh(b, 2), CallMethod(b.next, name, vs)), Variant(b.next), 1);
             c == Computed(Variant(b.next), ReturnIfFails(Emit(b1, NotNull(b.next + 1, b.next)), Reg(b.next + 1, I1)))
    requires Within(c.b, m)
    ensures Computes(m, b, s, c, s', m.h.call(name, xs), track) && UsesAll(s, s', vs)
    ensures Single(c)
  {
    hide *;
    var dst, ok := b.next, b.next + 1;
    var call := CallMethod(dst, name, vs);
    var b0 := Emit(Fresh(b, 2), call);
    var b1 := SetRef(b0, Variant(dst), 1);
    var b2 := Emit(b1, NotNull(ok, dst));
    var t := s.(dangling := s.dangling || !AllUsable(s, vs));
    TouchesAll(s, t, vs);
    ArgsValues(b, s, vs, xs, track);
    AliveIsFaultless(b, s, track);
    TouchedAlive(b, s, t, track);
    MethodExec(m, dst, name, vs, s, xs);
    var s1 := Exec(m, call, s).value;
    FreshStays(b, 2, s, m);
    OpenEmit(Fresh(b, 2), call);
    SetRefStays(b0, Variant(dst), 1, s1, m);
    OpenEmit(b1, NotNull(ok, dst));
    WithinCheck(b2, Reg(ok, I1), m);
    WithinEmit(b1, NotNull(ok, dst), m);
    WithinEmit(Fresh(b, 2), call, m);
    EmitRuns(m, Fresh(b, 2), call, s, s1);
    var x := m.h.call(name, xs).Some?;
    var s2 := Store(s1, ok, Bool(x), None);
    CallTested(m, s, t, s1, dst, ok, m.h.call(name, xs), b.next);
    EmitRuns(m, b1, NotNull(ok, dst), s1, s2);
    ReachesTrans(m, End(b, s), End(b1, s1), End(b2, s2));
    CheckRuns(m, b2, Reg(ok, I1), s2, x);
    s' := s2;
    SameUse(s, t, s', vs);
    MethodKeeps(b, call, dst, ok);
    SingleIn(c);
    if x {
      ReachesTrans(m, End(b, s), End(b2, s2), End(c.b, s2));
      NewIsProper(b, s, s', dst, track);
      CallCreated(b, c.b, s, t, dst, m.h.call(name, xs).value, track);
      IsComputed(m, b, s, c, s', m.h.call(name, xs).value, track);
    } else {
      ReachesTrans(m, End(b, s), End(b2, s2), Done(s2));
      IsFailed(m, b, s, c, s', track);
    }
  }

  lemma SingleIn(c: Computed)
    ensures c.v in c.b.refs && c.b.refs[c.v] == 1 ==> Single(c)
  {
  }

  lemma TouchesAll(s: State, t: State, vs: seq<Operand>)
    requires t == s.(dangling := s.dangling || !AllUsable(s, vs))
    ensures Touched(s, t) && UsesAll(s, t, vs) && t.regs == s.regs && t.out == s.out && t.live == s.live
    ensures t.recreated == s.recreated
  {
    hide AllUsable;
  }

  lemma SameUse(s: State, t: State, s': State, vs: seq<Operand>)
    requires UsesAll(s, t, vs) && s'.dangling == t.dangling
    ensures UsesAll(s, s', vs)
  {
    hide AllUsable;
  }

  lemma IsComputed(m: Machine, b: Builder, s: State, c: Computed, s': State, x: Value, track: Tracked)
    requires s'.out == s.out && Reaches(m, End(b, s), End(c.b, s')) && AgreeBelow(s, s', b.next)
    requires ValueOf(s', c.v) == Some(x)
    requires Alive(c.b, s', track) && Proper(s', c.v, track)
    ensures Computes(m, b, s, c, s', Some(x), track)
  {
    hide Reaches, End, AgreeBelow, ValueOf, Alive, Proper;
  }

  lemma IsFailed(m: Machine, b: Builder, s: State, c: Computed, s': State, track: Tracked)
    requires s'.out == s.out && Reaches(m, End(b, s), Done(s')) && (track.exact ==> !s'.recreated)
    ensures Computes(m, b, s, c, s', None, track)
  {
    hide Reaches, End;
  }

  lemma CallTested(m: Machine, s: State, t: State, s1: State, dst: nat, ok: nat, r: Option<Value>, n: nat)
    requires t.regs == s.regs && t.out == s.out && t.live == s.live && n <= dst && n <= ok && dst != ok
    requires s1 == if r.None? then t.(regs := t.regs[dst := Slot(NullPtr, None)]) else Create(t, dst, r.value)
    ensures var s2 := Store(s1, ok, Bool(r.Some?), None);
            && Exec(m, NotNull(ok, dst), s1) == Some(s2) && ValueOf(s2, Reg(ok, I1)) == Some(Bool(r.Some?))
            && s2.out == s.out && AgreeBelow(s, s2, n) && (r.Some? ==> ValueOf(s2, Variant(dst)) == r)
            && (r.None? ==> s2.recreated == t.recreated) && s2.dangling == t.dangling
  {
  }

  lemma MethodKeeps(b: Builder, call: Instr, dst: nat, ok: nat)
    ensures var b1 := SetRef(Emit(Fresh(b, 2), call), Variant(dst), 1);
            var b2 := ReturnIfFails(Emit(b1, NotNull(ok, dst)), Reg(ok, I1));
            b2.refs == b.refs[Variant(dst) := 1] && b2.next == b.next + 2
  {
  }

  lemma CallCreated(b: Builder, b': Builder, s: State, t: State, dst: nat, z: Value, track: Tracked)
    requires dst == b.next && b'.refs == b.refs[Variant(dst) := 1] && b'.next == b.next + 2
    requires Alive(b, t, track)
    ensures var s2 := Store(Create(t, dst, z), dst + 1, Bool(true), None);
            Alive(b', s2, track)
  {
    AliveCreate(b, Fresh(b, 1), t, dst, z, track);
    AliveStore(SetRef(Fresh(b, 1), Variant(dst), 1), b', Create(t, dst, z), dst + 1, Bool(true), None, track);
  }

  lemma MethodCallRuns(m: Machine, b: Builder, name: string, vs: seq<Operand>, s: State, xs: seq<Value>, track: Tracked)
    returns (s': State)
    requires Open(b) && MethodCall(b, name, vs).Ok? && Within(MethodCall(b, name, vs).value.b, m)
    requires Args(b, s, vs, xs, track) && Alive(b, s, track)
    ensures Computes(m, b, s, MethodCall(b, name, vs).value, s', m.h.call(name, xs), track) && UsesAll(s, s', vs)
    ensures Single(MethodCall(b, name, vs).value)
  {
    hide *;
    MethodUnfolds(b, name, vs);
    var ws := WrapAll(b, vs);
    var c := MethodCall(b, name, vs).value;
    WrapAllStage(m, b, vs);
    MethodStage(m, ws.b, CallMethod(ws.b.next, name, ws.vs), ws.b.next, ws.b.next + 1);
    var s1 := WrapAllRuns(m, b, vs, s, xs, track);
    WrapsAllParts(m, b, s, vs, ws, s1, xs, track);
    s' := CallOnVariants(m, ws.b, name, ws.vs, s1, xs, c, track);
    WrappedUse(s, s1, s', vs, ws.vs);
    ComputesAfter(m, b, s, ws.b, s1, c, s', m.h.call(name, xs), track);
  }

  lemma WrappedUse(s: State, s1: State, s': State, vs: seq<Operand>, ws: seq<Operand>)
    requires s1.dangling == s.dangling && (AllUsable(s1, ws) <==> AllUsable(s, vs)) && UsesAll(s1, s', ws)
    ensures UsesAll(s, s', vs)
  {
    hide AllUsable;
  }

  lemma WrapsAllParts(m: Machine, b: Builder, s: State, vs: seq<Operand>, ws: Arguments, s': State, xs: seq<Value>,
                      track: Tracked)
    requires WrapsAll(m, b, s, vs, ws, s', xs, track)
    ensures b.next <= ws.b.next && Reaches(m, End(b, s), End(ws.b, s')) && s'.out == s.out && AgreeBelow(s, s', b.next)
    ensures Args(ws.b, s', ws.vs, xs, track) && Alive(ws.b, s', track)
    ensures s'.dangling == s.dangling && (AllUsable(s', ws.vs) <==> AllUsable(s, vs))
  {
    hide Args, Reaches, End, AgreeBelow, Alive, CountsKept, Open;
  }

  lemma MethodStage(m: Machine, b: Builder, call: Instr, dst: nat, ok: nat)
    requires Open(b)
    ensures var b1 := SetRef(Emit(Fresh(b, 2), call), Variant(dst), 1);
            Within(ReturnIfFails(Emit(b1, NotNull(ok, dst)), Reg(ok, I1)), m) ==> Within(b, m)
  {
    hide *;
    var b0 := Emit(Fresh(b, 2), call);
    var b1 := SetRef(b0, Variant(dst), 1);
    var s := State(map[], "", {}, false, false);
    FreshStays(b, 2, s, m);
    OpenEmit(Fresh(b, 2), call);
    SetRefStays(b0, Variant(dst), 1, s, m);
    OpenEmit(b1, NotNull(ok, dst));
    if Within(ReturnIfFails(Emit(b1, NotNull(ok, dst)), Reg(ok, I1)), m) {
      WithinCheck(Emit(b1, NotNull(ok, dst)), Reg(ok, I1), m);
      WithinEmit(b1, NotNull(ok, dst), m);
      WithinEmit(Fresh(b, 2), call, m);
    }
  }

  lemma AliveIsFaultless(b: Builder, s: State, track: Tracked)
    requires Alive(b, s, track)
    ensures track.exact ==> !s.recreated
  {
  }

  lemma CheckedCallKeeps(b: Builder, ok: nat, call: Instr)
    ensures var b' := CheckedCall(b, ok, call); b'.refs == b.refs && b'.over == b.over && b'.next == b.next + 2
  {
  }

  // ---------- Stages of an operation ----------

  lemma WrapBothStage(m: Machine, b: Builder, l: Operand, r: Operand)
    requires Open(b)
    ensures var b' := WrapBoth(b, l, r).b; Open(b') && (Within(b', m) ==> Within(b, m))
  {
    hide Open, Within, WrapAsVariant;
    WrapOpen(b, l, m);
    WrapOpen(WrapAsVariant(b, l).b, r, m);
  }

  lemma CheckedCallStage(m: Machine, b: Builder, ok: nat, call: Instr)
    requires Open(b)
    ensures var b' := CheckedCall(b, ok, call); Open(b') && (Within(b', m) ==> Within(b, m))
  {
    var b1 := Emit(Fresh(b, 2), call);
    OpenEmit(Fresh(b, 2), call);
    CheckOpen(b1, Reg(ok, I1));
    if Within(CheckedCall(b, ok, call), m) {
      hide Within, Open, Emit, ReturnIfFails;
      WithinCheck(b1, Reg(ok, I1), m);
      WithinEmit(Fresh(b, 2), call, m);
      FreshStays(b, 2, State(map[], "", {}, false, false), m);
    }
  }

  lemma CheckOpen(b: Builder, cond: Operand)
    requires Open(b)
    ensures Open(ReturnIfFails(b, cond))
  {
  }

  lemma ReleaseStage(m: Machine, b: Builder, v: Operand)
    requires Open(b) && GoesOutOfScope(b, v).Ok?
    ensures var b' := GoesOutOfScope(b, v).value; Open(b') && (Within(b', m) ==> Within(b, m))
  {
    ReleaseOpen(b, v);
    if Within(GoesOutOfScope(b, v).value, m) {
      WithinRelease(b, v, m);
    }
  }

  lemma BothReleaseStage(m: Machine, b: Builder, l: Operand, r: Operand)
    requires Open(b) && BothGoOutOfScope(b, l, r).Ok?
    ensures var b' := BothGoOutOfScope(b, l, r).value; Open(b') && (Within(b', m) ==> Within(b, m))
  {
    hide Open, Within, GoesOutOfScope;
    ReleaseStage(m, b, l);
    ReleaseStage(m, GoesOutOfScope(b, l).value, r);
  }
}
