/** How the machine runs the parts of a compiled loop: the test before it, fetching the loop
    variables, releasing them, and the test for another iteration. */
module LoweringLoops {
  import opened Results
  import opened Semantics
  import opened Ir
  import opened Lowering
  import opened LoweringFrames
  import opened LoweringRuns
  import opened LoweringStorage
  import opened LoweringCorrect

  // ---------- Before the loop ----------

  /** The builders inside LoopStart. */
  function InitAppended(c: Builder, parts: LoopParts): (b: Builder)
    ensures b.cur == c.cur && b.next == c.next && |b.blocks| == |c.blocks| + 3 && b.blocks[c.cur] == c.blocks[c.cur]
  {
    Append(Append(Append(NewBlocks(c, 3), parts.loop), parts.loopElse), parts.after)
  }

  function InitEmitted(c: Builder, parts: LoopParts): Builder {
    Emit(Fresh(InitAppended(c, parts), 3), CallLoopInit(parts.meta.table, parts.meta.pos, parts.iterable))
  }

  function InitTested(c: Builder, parts: LoopParts): Builder {
    Emit(InitEmitted(c, parts), NotNull(c.next + 2, parts.meta.table))
  }

  lemma InitStages(m: Machine, c: Builder, parts: LoopParts)
    requires Open(c) && parts == PartsOf(c, parts.iterable) && Within(LoopStart(c, parts), m)
    ensures var t := Terminate(InitTested(c, parts), CondBr(Reg(c.next + 2, I1), parts.loop, parts.loopElse));
            && Within(t, m) && Within(InitTested(c, parts), m) && Within(InitEmitted(c, parts), m)
            && Open(InitTested(c, parts)) && Open(InitEmitted(c, parts)) && Open(Fresh(InitAppended(c, parts), 3))
  {
    var i0 := CallLoopInit(parts.meta.table, parts.meta.pos, parts.iterable);
    var i1 := NotNull(c.next + 2, parts.meta.table);
    var br := CondBr(Reg(c.next + 2, I1), parts.loop, parts.loopElse);
    var a := Fresh(InitAppended(c, parts), 3);
    assert LoopStart(c, parts).blocks == Terminate(InitTested(c, parts), br).blocks;
    hide Within, Open, LoopStart, Emit, Terminate;
    assert Open(a) by { AppendedOpen(c, parts); }
    OpenEmit(a, i0);
    OpenEmit(InitEmitted(c, parts), i1);
    SameBlocksWithin(LoopStart(c, parts), Terminate(InitTested(c, parts), br), m);
    WithinTerminate(InitTested(c, parts), br, m);
    WithinEmit(InitEmitted(c, parts), i1, m);
  }

  lemma AppendedOpen(c: Builder, parts: LoopParts)
    requires Open(c)
    ensures Open(Fresh(InitAppended(c, parts), 3))
  {
  }

  lemma SameBlocksWithin(b: Builder, b': Builder, m: Machine)
    requires Within(b, m) && b'.blocks == b.blocks
    ensures Within(b', m)
  {
  }

  /** The loop's registers: what it iterates over, in whose storage, and how far it got. */
  ghost predicate LoopRegs(s: State, meta: Meta, entries: seq<Entry>, root: Option<nat>, i: nat) {
    && meta.table in s.regs && s.regs[meta.table] == Slot(TableOf(entries), root)
    && meta.pos in s.regs && s.regs[meta.pos].content == Position(i)
  }

  function InitState(s: State, meta: Meta, content: Content, root: Option<nat>, cond: nat): State {
    s.(regs := s.regs[meta.table := Slot(content, root)][meta.pos := Slot(Position(0), None)]
               [cond := Slot(Val(Bool(content != NullPtr)), None)])
  }

  lemma InitExec(m: Machine, c: Builder, parts: LoopParts, s: State, x: Value)
    requires parts == PartsOf(c, parts.iterable) && ValueOf(s, parts.iterable) == Some(x)
    ensures var content := if EntriesOf(x) == [] then NullPtr else TableOf(EntriesOf(x));
            var root := RootOf(s, parts.iterable);
            var started := s.regs[parts.meta.table := Slot(content, root)][parts.meta.pos := Slot(Position(0), None)];
            var s1 := Touch(s, parts.iterable).(regs := started);
            && Exec(m, CallLoopInit(parts.meta.table, parts.meta.pos, parts.iterable), s) == Some(s1)
            && Exec(m, NotNull(c.next + 2, parts.meta.table), s1)
               == Some(InitState(Touch(s, parts.iterable), parts.meta, content, root, c.next + 2))
  {
    hide EntriesOf;
  }

  /** The registers of a loop are new, so everything else stays. */
  lemma InitFacts(c: Builder, meta: Meta, s: State, t: State, content: Content, root: Option<nat>, track: Tracked)
    requires Touched(s, t) && meta == Meta(c.next, c.next + 1) && Alive(c, s, track)
    ensures var s2 := InitState(t, meta, content, root, c.next + 2);
            && s2.out == s.out && AgreeBelow(s, s2, c.next) && Alive(c, s2, track) && s2.dangling == t.dangling
            && ValueOf(s2, Reg(c.next + 2, I1)) == Some(Bool(content != NullPtr))
            && (content.TableOf? ==> LoopRegs(s2, meta, content.entries, root, 0))
  {
  }

  lemma InitRuns(m: Machine, c: Builder, parts: LoopParts, s: State, x: Value, track: Tracked) returns (s': State)
    requires Open(c) && parts == PartsOf(c, parts.iterable) && Within(LoopStart(c, parts), m)
    requires Operands(c, s, parts.iterable, x, parts.iterable, x, track)
    ensures Reaches(m, End(c, s), At(if EntriesOf(x) == [] then parts.loopElse else parts.loop, 0, s'))
    ensures s'.out == s.out && AgreeBelow(s, s', c.next) && Alive(c, s', track)
    ensures Uses2(s, s', parts.iterable, parts.iterable)
    ensures EntriesOf(x) != [] ==> LoopRegs(s', parts.meta, EntriesOf(x), RootOf(s, parts.iterable), 0)
  {
    hide *;
    var entries := EntriesOf(x);
    var content := if entries == [] then NullPtr else TableOf(entries);
    var root := RootOf(s, parts.iterable);
    var t := Touch(s, parts.iterable);
    var s1 := t.(regs := s.regs[parts.meta.table := Slot(content, root)][parts.meta.pos := Slot(Position(0), None)]);
    s' := InitState(t, parts.meta, content, root, c.next + 2);
    OperandsParts(c, s, parts.iterable, x, parts.iterable, x, track);
    TouchesBoth(s, parts.iterable, parts.iterable);
    InitExec(m, c, parts, s, x);
    PartsMeta(c, parts);
    InitFacts(c, parts.meta, s, t, content, root, track);
    SameDangling(s, t, s', parts.iterable, parts.iterable);
    InitStages(m, c, parts);
    InitSteps(m, c, parts, s, s1, s', content != NullPtr);
  }

  lemma PartsMeta(c: Builder, parts: LoopParts)
    requires parts == PartsOf(c, parts.iterable)
    ensures parts.meta == Meta(c.next, c.next + 1)
  {
  }

  lemma InitSteps(m: Machine, c: Builder, parts: LoopParts, s: State, s1: State, s2: State, any: bool)
    requires Open(Fresh(InitAppended(c, parts), 3)) && Open(InitEmitted(c, parts)) && Open(InitTested(c, parts))
    requires Within(Terminate(InitTested(c, parts), CondBr(Reg(c.next + 2, I1), parts.loop, parts.loopElse)), m)
    requires Within(InitTested(c, parts), m) && Within(InitEmitted(c, parts), m)
    requires Exec(m, CallLoopInit(parts.meta.table, parts.meta.pos, parts.iterable), s) == Some(s1)
    requires Exec(m, NotNull(c.next + 2, parts.meta.table), s1) == Some(s2)
    requires ValueOf(s2, Reg(c.next + 2, I1)) == Some(Bool(any))
    ensures Reaches(m, End(c, s), At(if any then parts.loop else parts.loopElse, 0, s2))
  {
    var a := Fresh(InitAppended(c, parts), 3);
    var e1, e2 := InitEmitted(c, parts), InitTested(c, parts);
    assert End(a, s) == End(c, s);
    hide Exec, Reaches, Emit, Within, Open, ValueOf, End, Terminate;
    EmitRuns(m, a, CallLoopInit(parts.meta.table, parts.meta.pos, parts.iterable), s, s1);
    EmitRuns(m, e1, NotNull(c.next + 2, parts.meta.table), s1, s2);
    TerminateRuns(m, e2, CondBr(Reg(c.next + 2, I1), parts.loop, parts.loopElse), s2);
    ReachesTrans(m, End(c, s), End(e1, s1), End(e2, s2));
    ReachesTrans(m, End(c, s), End(e2, s2), At(if any then parts.loop else parts.loopElse, 0, s2));
  }

  // ---------- Fetching the loop variables ----------

  /** Using what is stored under root. */
  function TouchRoot(s: State, root: Option<nat>): State {
    s.(dangling := s.dangling || (root.Some? && root.value !in s.live))
  }

  function Fetched(s: State, vars: LoopVars, entry: Entry, root: Option<nat>): State {
    var s1 := TouchRoot(s, root);
    var s2 := if vars.val.Some? then Store(s1, vars.val.value, entry.val, root) else s1;
    if vars.key.Some? then Create(s2, vars.key.value, entry.key) else s2
  }

  lemma FetchExec(m: Machine, s: State, meta: Meta, vars: LoopVars, entries: seq<Entry>, root: Option<nat>, i: nat)
    requires LoopRegs(s, meta, entries, root, i) && i < |entries|
    ensures Exec(m, CallLoopGet(meta.table, meta.pos, vars.key, vars.val), s)
            == Some(Fetched(s, vars, entries[i], root))
  {
  }

  lemma FetchFacts(p: Builder, vars: LoopVars, s: State, entry: Entry, root: Option<nat>)
    requires vars == VarsOf(p, vars.key.Some?, vars.val.Some?)
    ensures var s' := Fetched(s, vars, entry, root);
            && s'.out == s.out && AgreeBelow(s, s', p.next) && s'.dangling == TouchRoot(s, root).dangling
            && (vars.key.Some? ==> ValueOf(s', Variant(vars.key.value)) == Some(entry.key)
                                   && RootOf(s', Variant(vars.key.value)) == vars.key)
            && (vars.val.Some? ==> ValueOf(s', Variant(vars.val.value)) == Some(entry.val)
                                   && RootOf(s', Variant(vars.val.value)) == root)
  {
  }

  /** The counts after LoopGet. */
  function RefsWith(refs: map<Operand, int>, vars: LoopVars): map<Operand, int> {
    var r := if vars.key.Some? then refs[Variant(vars.key.value) := 1] else refs;
    if vars.val.Some? then r[Variant(vars.val.value) := -1] else r
  }

  lemma LoopGetParts(p: Builder, meta: Meta, vars: LoopVars)
    requires vars == VarsOf(p, vars.key.Some?, vars.val.Some?)
    ensures var b := LoopGet(p, meta, vars);
            && b.refs == RefsWith(p.refs, vars) && b.over == p.over
            && (vars.key.Some? ==> vars.key.value < b.next) && (vars.val.Some? ==> vars.val.value < b.next)
               && p.next <= b.next
            && var e := Emit(p, CallLoopGet(meta.table, meta.pos, vars.key, vars.val));
               b.cur == e.cur && b.blocks == e.blocks
  {
  }

  lemma FetchAlive(p: Builder, b: Builder, vars: LoopVars, s: State, entry: Entry, root: Option<nat>, track: Tracked)
    requires vars == VarsOf(p, vars.key.Some?, vars.val.Some?) && Alive(p, s, track)
    requires b.refs == RefsWith(p.refs, vars) && p.next <= b.next && (vars.key.Some? ==> vars.key.value < b.next)
    ensures Alive(b, Fetched(s, vars, entry, root), track)
  {
    assert forall id: nat :: Some(id) != vars.key ==> (Counted(b, id) ==> Counted(p, id));
  }

  lemma FetchRuns(m: Machine, p: Builder, meta: Meta, vars: LoopVars, s: State, entries: seq<Entry>, root: Option<nat>,
                  i: nat)
    requires Open(p) && vars == VarsOf(p, vars.key.Some?, vars.val.Some?) && Within(LoopGet(p, meta, vars), m)
    requires LoopRegs(s, meta, entries, root, i) && i < |entries|
    ensures Reaches(m, End(p, s), End(LoopGet(p, meta, vars), Fetched(s, vars, entries[i], root)))
    ensures Within(p, m)
  {
    hide *;
    var get := CallLoopGet(meta.table, meta.pos, vars.key, vars.val);
    FetchExec(m, s, meta, vars, entries, root, i);
    LoopGetParts(p, meta, vars);
    SameBlocksWithin(LoopGet(p, meta, vars), Emit(p, get), m);
    WithinEmit(p, get, m);
    EmitRuns(m, p, get, s, Fetched(s, vars, entries[i], root));
    SameEnd(LoopGet(p, meta, vars), Emit(p, get), Fetched(s, vars, entries[i], root));
  }

  lemma SameEnd(b: Builder, b': Builder, s: State)
    requires b.blocks == b'.blocks && b.cur == b'.cur
    ensures End(b, s) == End(b', s)
  {
  }

  /** The environment of the body: the interpreter's. */
  lemma BodyLinked(m: Machine, p: Builder, body: Builder, s: State, s': State, env: Env, k: Option<string>,
                   v: Option<string>, vars: LoopVars, entry: Entry)
    requires Linked(m, p, s, env) && WellFormed(p) && AgreeBelow(s, s', p.next)
    requires body.over == LoopOver(p.over, k, v, vars) && vars.key.Some? == k.Some? && vars.val.Some? == v.Some?
    requires vars.key.Some? ==> ValueOf(s', Variant(vars.key.value)) == Some(entry.key)
    requires vars.val.Some? ==> ValueOf(s', Variant(vars.val.value)) == Some(entry.val)
    ensures Linked(m, body, s', Bind(env, k, v, entry))
  {
    var env' := Bind(env, k, v, entry);
    forall x | x in body.over
      ensures env'(x).Some? && ValueOf(s', body.over[x]) == env'(x)
    {
      if Some(x) != v && Some(x) != k {
        OperandKept(s, s', p.next, p.over[x]);
      }
    }
  }

  lemma BodyHeld(m: Machine, p: Builder, body: Builder, s: State, s': State, env: Env, k: Option<string>,
                 v: Option<string>, vars: LoopVars, root: Option<nat>, track: Tracked)
    requires Linked(m, p, s, env) && WellFormed(p) && AgreeBelow(s, s', p.next) && OverHeld(p, s, track)
    requires body.over == LoopOver(p.over, k, v, vars) && vars.key.Some? == k.Some? && vars.val.Some? == v.Some?
    requires vars == VarsOf(p, vars.key.Some?, vars.val.Some?) && track.from <= p.next
    requires body.refs == RefsWith(p.refs, vars)
    requires vars.key.Some? ==> RootOf(s', Variant(vars.key.value)) == vars.key
    requires vars.val.Some? ==> RootOf(s', Variant(vars.val.value)) == root
    requires root.Some? ==> Counted(p, root.value) && Tracks(track, root.value)
    ensures OverHeld(body, s', track)
  {
    assert CountsKept(p, body) by { FetchCounts(p, body, vars); }
    forall x | x in body.over
      ensures Held(body, s', body.over[x], track)
    {
      if Some(x) == v {
        assert body.over[x] == Variant(vars.val.value);
      } else if Some(x) == k {
        assert body.over[x] == Variant(vars.key.value);
        assert Counted(body, vars.key.value);
      } else {
        OperandKept(s, s', p.next, p.over[x]);
        HeldWhenKept(p, body, s, s', p.over[x], track);
      }
    }
  }

  lemma BodyTracked(p: Builder, body: Builder, k: Option<string>, v: Option<string>, vars: LoopVars, track: Tracked)
    requires OverTracked(p, track) && body.over == LoopOver(p.over, k, v, vars)
    requires vars == VarsOf(p, vars.key.Some?, vars.val.Some?) && track.from <= p.next
    ensures OverTracked(body, track)
  {
  }

  lemma FetchCounts(p: Builder, body: Builder, vars: LoopVars)
    requires WellFormed(p) && body.refs == RefsWith(p.refs, vars) && vars == VarsOf(p, vars.key.Some?, vars.val.Some?)
    ensures CountsKept(p, body)
  {
  }

  /** One iteration starts: the machine is ready for the body in the interpreter's environment. */
  lemma BodyReady(m: Machine, p: Builder, meta: Meta, body: Builder, s: State, env: Env, k: Option<string>,
                  v: Option<string>, vars: LoopVars, entry: Entry, root: Option<nat>, track: Tracked, held: bool)
    requires WellFormed(p) && Ready(m, p, s, env, track, held)
    requires vars == VarsOf(p, k.Some?, v.Some?)
    requires body == LoopGet(p, meta, vars).(over := LoopOver(LoopGet(p, meta, vars).over, k, v, vars))
    requires held && root.Some? ==> Counted(p, root.value) && Tracks(track, root.value)
    ensures Ready(m, body, Fetched(s, vars, entry, root), Bind(env, k, v, entry), track, held)
  {
    hide *;
    var s' := Fetched(s, vars, entry, root);
    VarsSome(p, k, v, vars);
    ReadyParts(m, p, s, env, track, held);
    LoopGetParts(p, meta, vars);
    FetchFacts(p, vars, s, entry, root);
    BodyLinked(m, p, body, s, s', env, k, v, vars, entry);
    FetchAlive(p, body, vars, s, entry, root, track);
    TrackedFrom(p, s, track);
    BodyTracked(p, body, k, v, vars, track);
    if held { BodyHeld(m, p, body, s, s', env, k, v, vars, root, track); }
    IsReady(m, body, s', Bind(env, k, v, entry), track, held);
  }

  lemma TrackedFrom(b: Builder, s: State, track: Tracked)
    requires Alive(b, s, track)
    ensures track.from <= b.next
  {
  }

  lemma VarsSome(p: Builder, k: Option<string>, v: Option<string>, vars: LoopVars)
    requires vars == VarsOf(p, k.Some?, v.Some?)
    ensures vars.key.Some? == k.Some? && vars.val.Some? == v.Some? && vars == VarsOf(p, vars.key.Some?, vars.val.Some?)
  {
  }

  lemma ReadyParts(m: Machine, b: Builder, s: State, env: Env, track: Tracked, held: bool)
    requires Ready(m, b, s, env, track, held)
    ensures Linked(m, b, s, env) && Alive(b, s, track) && OverTracked(b, track) && (held ==> OverHeld(b, s, track))
  {
    hide Linked, Alive, OverHeld, OverTracked;
  }

  lemma IsReady(m: Machine, b: Builder, s: State, env: Env, track: Tracked, held: bool)
    requires Linked(m, b, s, env) && Alive(b, s, track) && OverTracked(b, track) && (held ==> OverHeld(b, s, track))
    ensures Ready(m, b, s, env, track, held)
  {
    hide Linked, Alive, OverHeld, OverTracked;
  }

  // ---------- After the body ----------

  lemma DropStages(m: Machine, b: Builder, vars: LoopVars)
    requires Open(b) && DropVariables(b, vars).Ok?
    ensures var d := DropVariables(b, vars).value;
            && Open(d) && (Within(d, m) ==> Within(b, m)) && d.over == b.over && d.next == b.next
  {
    hide Open, Within, GoesOutOfScope;
    var b1 := b;
    if vars.key.Some? {
      ReleaseStage(m, b, Variant(vars.key.value));
      ReleaseOpen(b, Variant(vars.key.value));
      b1 := GoesOutOfScope(b, Variant(vars.key.value)).value;
    }
    if vars.val.Some? {
      ReleaseStage(m, b1, Variant(vars.val.value));
      ReleaseOpen(b1, Variant(vars.val.value));
    }
  }

  lemma DropRuns(m: Machine, b: Builder, vars: LoopVars, s: State, track: Tracked) returns (s': State)
    requires Open(b) && DropVariables(b, vars).Ok? && Within(DropVariables(b, vars).value, m) && Alive(b, s, track)
    requires (vars.key.Some? ==> Tracks(track, vars.key.value)) && (vars.val.Some? ==> Tracks(track, vars.val.value))
    ensures var d := DropVariables(b, vars).value;
            Reaches(m, End(b, s), End(d, s')) && s'.regs == s.regs && s'.out == s.out && Alive(d, s', track)
            && s'.live <= s.live && s'.dangling == s.dangling
  {
    hide Open, Within, GoesOutOfScope, Reaches, End, Alive;
    var b1, s1 := b, s;
    ReachesSelf(m, End(b, s));
    if vars.key.Some? {
      var key := Variant(vars.key.value);
      b1 := GoesOutOfScope(b, key).value;
      ReleaseOpen(b, key);
      if vars.val.Some? { ReleaseStage(m, b1, Variant(vars.val.value)); }
      s1 := ReleaseRuns(m, b, key, s, track);
    }
    s' := s1;
    if vars.val.Some? {
      var val := Variant(vars.val.value);
      s' := ReleaseRuns(m, b1, val, s1, track);
      ReachesTrans(m, End(b, s), End(b1, s1), End(GoesOutOfScope(b1, val).value, s'));
    }
  }

  function NextState(t: State, meta: Meta, dst: nat, i: nat, any: bool): State {
    t.(regs := t.regs[meta.pos := Slot(Position(i + 1), None)][dst := Slot(Val(Bool(any)), None)])
  }

  lemma NextExec(m: Machine, s: State, meta: Meta, dst: nat, entries: seq<Entry>, root: Option<nat>, i: nat)
    requires LoopRegs(s, meta, entries, root, i) && meta.table != meta.pos
    ensures Exec(m, CallLoopNext(dst, meta.table, meta.pos), s)
            == Some(NextState(TouchRoot(s, root), meta, dst, i, i + 1 < |entries|))
  {
  }

  lemma NextStages(m: Machine, b: Builder, parts: LoopParts, meta: Meta)
    requires Open(b) && parts.loopElse < |b.blocks| && parts.iterable in b.meta && b.meta[parts.iterable] == meta
    requires LoopNext(b, parts).Ok? && Within(LoopNext(b, parts).value, m)
    ensures var e := Emit(Fresh(b, 1), CallLoopNext(b.next, meta.table, meta.pos));
            && Within(Terminate(e, CondBr(Reg(b.next, I1), parts.loop, parts.after)), m) && Within(e, m) && Open(e)
               && Within(b, m)
  {
    var next := CallLoopNext(b.next, meta.table, meta.pos);
    var e := Emit(Fresh(b, 1), next);
    var br := CondBr(Reg(b.next, I1), parts.loop, parts.after);
    assert LoopNext(b, parts).value.blocks == Terminate(e, br).blocks;
    hide Within, Open, Emit, Terminate, LoopNext;
    NativeStage(m, b, next);
    SameBlocksWithin(LoopNext(b, parts).value, Terminate(e, br), m);
    WithinTerminate(e, br, m);
  }

  lemma NextRuns(m: Machine, b: Builder, parts: LoopParts, meta: Meta, s: State, entries: seq<Entry>, root: Option<nat>,
                 i: nat)
    requires Open(b) && parts.loopElse < |b.blocks| && parts.iterable in b.meta && b.meta[parts.iterable] == meta
    requires LoopNext(b, parts).Ok? && Within(LoopNext(b, parts).value, m)
    requires LoopRegs(s, meta, entries, root, i) && meta.table != meta.pos
    ensures Reaches(m, End(b, s), At(if i + 1 < |entries| then parts.loop else parts.after, 0,
                                     NextState(TouchRoot(s, root), meta, b.next, i, i + 1 < |entries|)))
  {
    hide *;
    var any := i + 1 < |entries|;
    var next := CallLoopNext(b.next, meta.table, meta.pos);
    var e := Emit(Fresh(b, 1), next);
    var s' := NextState(TouchRoot(s, root), meta, b.next, i, any);
    NextExec(m, s, meta, b.next, entries, root, i);
    NextStages(m, b, parts, meta);
    FreshStays(b, 1, s, m);
    EmitRuns(m, Fresh(b, 1), next, s, s');
    NextCondition(TouchRoot(s, root), meta, b.next, i, any);
    TerminateRuns(m, e, CondBr(Reg(b.next, I1), parts.loop, parts.after), s');
    ReachesTrans(m, End(b, s), End(e, s'), At(if any then parts.loop else parts.after, 0, s'));
  }

  lemma NextCondition(t: State, meta: Meta, dst: nat, i: nat, any: bool)
    ensures ValueOf(NextState(t, meta, dst, i, any), Reg(dst, I1)) == Some(Bool(any))
  {
  }

  /** The next iteration finds everything older than the loop's registers as it was. */
  lemma NextFacts(h: Builder, meta: Meta, s: State, dst: nat, entries: seq<Entry>, root: Option<nat>, i: nat, any: bool,
                  track: Tracked)
    requires Alive(h, s, track) && LoopRegs(s, meta, entries, root, i)
    requires h.next == meta.table && meta.pos == meta.table + 1 && meta.pos < dst
    ensures var s' := NextState(TouchRoot(s, root), meta, dst, i, any);
            && s'.out == s.out && AgreeBelow(s, s', h.next) && Alive(h, s', track)
            && LoopRegs(s', meta, entries, root, i + 1) && s'.dangling == TouchRoot(s, root).dangling
  {
  }
}
