/** The compiled template prints what the template renders: running the lowered function
    appends exactly the rendered text, on every path through the graph, and returns early
    exactly where rendering stops. */
module LoweringStatements {
  import opened Results
  import opened Ast
  import opened Semantics
  import opened Ir
  import opened Lowering
  import opened LoweringFrames
  import opened LoweringRuns
  import opened LoweringStorage
  import opened LoweringCorrect
  import opened LoweringLoops

  /** The same of every expression of the tree. */
  ghost predicate RunnableStmt(h: Host, t: AST) {
    match t
    case Statements(l) => RunnableStmts(h, l)
    case Raw(_) => true
    case Print(e) => Runnable(h, e)
    case If(c, a, b) => Runnable(h, c) && RunnableStmt(h, a) && RunnableOpt(h, b)
    case For(_, _, it, a, b) => Runnable(h, it) && RunnableStmt(h, a) && RunnableOpt(h, b)
    case Include(_, _, _) => true
  }

  ghost predicate RunnableOpt(h: Host, o: Option<AST>) {
    match o
    case None => true
    case Some(t) => RunnableStmt(h, t)
  }

  ghost predicate RunnableStmts(h: Host, l: seq<AST>) {
    if l == [] then true else RunnableStmt(h, l[0]) && RunnableStmts(h, l[1..])
  }

  /** Running what was emitted between b and b' has the outcome o; where storage matters
      (`held`), none is used after its end. */
  ghost predicate StmtRan(m: Machine, b: Builder, s: State, b': Builder, o: Outcome, s': State, track: Tracked,
                          held: bool) {
    && s'.out == s.out + o.text && (held ==> s'.dangling == s.dangling)
    && (o.ok ==> Reaches(m, End(b, s), End(b', s')) && AgreeBelow(s, s', b.next) && Alive(b', s', track))
    && (!o.ok ==> Reaches(m, End(b, s), Done(s')) && (track.exact ==> !s'.recreated))
  }

  lemma RanOk(m: Machine, b: Builder, s: State, b': Builder, o: Outcome, s': State, track: Tracked, held: bool)
    requires s'.out == s.out + o.text && o.ok && (held ==> s'.dangling == s.dangling)
    requires Reaches(m, End(b, s), End(b', s')) && AgreeBelow(s, s', b.next) && Alive(b', s', track)
    ensures StmtRan(m, b, s, b', o, s', track, held)
  {
    hide Reaches, End, AgreeBelow, Alive;
  }

  lemma RanOkParts(m: Machine, b: Builder, s: State, b': Builder, o: Outcome, s': State, track: Tracked, held: bool)
    requires StmtRan(m, b, s, b', o, s', track, held) && o.ok
    ensures s'.out == s.out + o.text && (held ==> s'.dangling == s.dangling)
    ensures Reaches(m, End(b, s), End(b', s')) && AgreeBelow(s, s', b.next) && Alive(b', s', track)
  {
    hide Reaches, End, AgreeBelow, Alive;
  }

  lemma RanFails(m: Machine, b: Builder, s: State, b': Builder, o: Outcome, s': State, track: Tracked, held: bool)
    requires s'.out == s.out + o.text && !o.ok && (held ==> s'.dangling == s.dangling)
    requires Reaches(m, End(b, s), Done(s')) && (track.exact ==> !s'.recreated)
    ensures StmtRan(m, b, s, b', o, s', track, held)
  {
    hide Reaches, End;
  }

  /** A failed run does not get to the insertion point, wherever that is. */
  lemma FailedAnywhere(m: Machine, b: Builder, s: State, b': Builder, b'': Builder, o: Outcome, s': State, t: Tracked,
                       track: Tracked, held: bool)
    requires StmtRan(m, b, s, b', o, s', t, held) && !o.ok && track.exact == t.exact
    ensures StmtRan(m, b, s, b'', o, s', track, held)
  {
    hide Reaches, End;
  }

  /** A statement after another. */
  lemma RanThen(m: Machine, b: Builder, s: State, b1: Builder, s1: State, b2: Builder, s2: State, o1: Outcome,
                o2: Outcome, t: Tracked, track: Tracked, held: bool)
    requires StmtRan(m, b, s, b1, o1, s1, t, held) && o1.ok && StmtRan(m, b1, s1, b2, o2, s2, track, held)
    requires b.next <= b1.next
    ensures StmtRan(m, b, s, b2, Then(o1, o2), s2, track, held)
  {
    hide Reaches, End, Alive, AgreeBelow;
    assert s.out + (o1.text + o2.text) == (s.out + o1.text) + o2.text;
    if o2.ok {
      ReachesTrans(m, End(b, s), End(b1, s1), End(b2, s2));
      AgreeTrans(s, s1, s2, b.next, b1.next);
    } else {
      ReachesTrans(m, End(b, s), End(b1, s1), Done(s2));
    }
  }

  /** A statement after something that prints nothing. */
  lemma RanAfter(m: Machine, b: Builder, s: State, b1: Builder, s1: State, b2: Builder, s2: State, o: Outcome,
                 track: Tracked, held: bool)
    requires s1.out == s.out && Reaches(m, End(b, s), End(b1, s1)) && AgreeBelow(s, s1, b.next) && b.next <= b1.next
    requires (held ==> s1.dangling == s.dangling) && StmtRan(m, b1, s1, b2, o, s2, track, held)
    ensures StmtRan(m, b, s, b2, o, s2, track, held)
  {
    hide Reaches, End, Alive, AgreeBelow;
    if o.ok {
      ReachesTrans(m, End(b, s), End(b1, s1), End(b2, s2));
      AgreeTrans(s, s1, s2, b.next, b1.next);
    } else {
      ReachesTrans(m, End(b, s), End(b1, s1), Done(s2));
    }
  }

  /** An expression that fails ends the template. */
  lemma ExprFailed(m: Machine, b: Builder, s: State, c: Computed, b': Builder, s': State, t: Tracked, track: Tracked,
                   held: bool)
    requires Computes(m, b, s, c, s', None, t) && track.exact == t.exact && (held ==> s'.dangling == s.dangling)
    ensures StmtRan(m, b, s, b', FAILED, s', track, held)
  {
    hide Reaches, End;
    assert s.out + "" == s.out;
  }

  // ---------- Tracked temporaries ----------

  /** What is tracked between statements: nothing from the next register on is in use. */
  function From(track: Tracked, b: Builder): (t: Tracked)
    ensures t.exact == track.exact
  {
    track.(from := b.next)
  }

  /** The tracked variants have references, or need none. */
  predicate Keeps(b: Builder, track: Tracked) {
    forall id: nat :: id in track.ids ==> Variant(id) in b.refs && b.refs[Variant(id)] != 0
  }

  /** The machine is ready to run a statement. */
  ghost predicate ReadyAt(m: Machine, b: Builder, s: State, env: Env, track: Tracked, held: bool) {
    Ready(m, b, s, env, From(track, b), held) && Keeps(b, track)
  }

  lemma ReadyAtParts(m: Machine, b: Builder, s: State, env: Env, track: Tracked, held: bool)
    requires ReadyAt(m, b, s, env, track, held)
    ensures Ready(m, b, s, env, From(track, b), held) && Keeps(b, track) && Alive(b, s, From(track, b))
    ensures From(track, b).exact == track.exact
  {
    hide Linked, Alive, OverHeld, OverTracked, Keeps;
  }

  lemma KeepsLater(a: Builder, b: Builder, owed: multiset<Operand>, exact: bool, track: Tracked)
    requires Keeps(a, track) && WellFormed(a) && Owes(a, b, owed, exact)
    ensures Keeps(b, track)
  {
    forall id: nat | id in track.ids
      ensures Variant(id) in b.refs && b.refs[Variant(id)] != 0
    {
      assert a.refs[Variant(id)] >= -1;
    }
  }

  /** The same state at another point of the function, tracking no more. */
  lemma AliveAt(a: Builder, b: Builder, s: State, t: Tracked, track: Tracked)
    requires Alive(a, s, t) && WellFormed(b) && track.from <= b.next && (track.exact ==> t.exact)
    requires forall id: nat :: Counted(b, id) && Tracks(track, id) ==> Counted(a, id) && Tracks(t, id)
    requires track.exact ==> forall id: nat :: Counted(a, id) ==> Counted(b, id)
    ensures Alive(b, s, track)
  {
    hide Tracks;
    forall id: nat | Counted(b, id) && Tracks(track, id)
      ensures id < b.next && id in s.live && id in s.regs && s.regs[id].root == Some(id)
    {
      assert Counted(a, id) && Tracks(t, id);
    }
  }

  lemma SameCounted(a: Builder, b: Builder)
    requires Owes(a, b, multiset{}, true)
    ensures forall id: nat :: Counted(a, id) <==> Counted(b, id)
  {
  }

  lemma AliveLater(a: Builder, b: Builder, s: State, track: Tracked)
    requires Alive(a, s, From(track, a)) && Keeps(a, track) && Owes(a, b, multiset{}, track.exact)
    requires WellFormed(a) && WellFormed(b)
    ensures Alive(b, s, From(track, b))
  {
    forall id: nat | Counted(b, id) && Tracks(From(track, b), id)
      ensures Counted(a, id) && Tracks(From(track, a), id)
    {
      assert id < b.next;
    }
    AliveAt(a, b, s, From(track, a), From(track, b));
  }

  /** Temporaries of the statement are no longer in use at its end. */
  lemma AliveRaise(b: Builder, s: State, t: Tracked, track: Tracked)
    requires Alive(b, s, t) && WellFormed(b) && track.exact == t.exact && track.ids <= t.ids && t.from <= track.from
    requires track.from <= b.next
    ensures Alive(b, s, track)
  {
  }

  lemma RanRaise(m: Machine, b: Builder, s: State, b': Builder, o: Outcome, s': State, t: Tracked, track: Tracked,
                 held: bool)
    requires StmtRan(m, b, s, b', o, s', t, held) && WellFormed(b') && track.exact == t.exact && track.ids <= t.ids
    requires t.from <= track.from <= b'.next
    ensures StmtRan(m, b, s, b', o, s', track, held)
  {
    hide Reaches, End, AgreeBelow, Alive, WellFormed;
    if o.ok { AliveRaise(b', s', t, track); }
  }

  lemma AtRaises(track: Tracked, a: Builder, b: Builder)
    requires a.next <= b.next
    ensures From(track, b).exact == From(track, a).exact && From(track, b).ids <= From(track, a).ids
    ensures From(track, a).from <= From(track, b).from <= b.next
  {
  }

  /** Ready for the statement after what was run from b. */
  lemma ReadyThen(m: Machine, b: Builder, c: Builder, s: State, s': State, env: Env, track: Tracked, held: bool)
    requires WellFormed(b) && ReadyAt(m, b, s, env, track, held) && AgreeBelow(s, s', b.next) && c.over == b.over
    requires b.next <= c.next && Keeps(c, track) && CountsKept(b, c) && Alive(c, s', From(track, c))
    ensures ReadyAt(m, c, s', env, track, held)
  {
    hide Alive, AgreeBelow, CountsKept, WellFormed, Linked, Keeps;
    LinkedKept(m, b, c, s, s', env);
    OverAt(b, c, track);
    if held {
      OverHeldAt(b, s, c, track);
      OverHeldKept(m, b, c, s, s', env, From(track, c));
    }
  }

  lemma OverAt(b: Builder, c: Builder, track: Tracked)
    requires WellFormed(b) && OverTracked(b, From(track, b)) && c.over == b.over && b.next <= c.next
    ensures OverTracked(c, From(track, c))
  {
  }

  lemma OverHeldAt(b: Builder, s: State, c: Builder, track: Tracked)
    requires WellFormed(b) && OverHeld(b, s, From(track, b)) && b.next <= c.next
    ensures OverHeld(b, s, From(track, c))
  {
    forall x | x in b.over
      ensures Held(b, s, b.over[x], From(track, c))
    {
      HeldAt(b, s, b.over[x], track, c);
    }
  }

  /** Storage with references belongs to older registers. */
  lemma HeldAt(b: Builder, s: State, o: Operand, track: Tracked, c: Builder)
    requires WellFormed(b) && Held(b, s, o, From(track, b)) && b.next <= c.next
    ensures Held(b, s, o, From(track, c))
  {
    if RootOf(s, o).Some? {
      assert Variant(RootOf(s, o).value).id < b.next;
    }
  }

  lemma NothingRan(m: Machine, b: Builder, s: State, track: Tracked, held: bool)
    requires Alive(b, s, track)
    ensures StmtRan(m, b, s, b, NOTHING, s, track, held)
  {
    hide Reaches, End, Alive;
    ReachesSelf(m, End(b, s));
    assert s.out + "" == s.out;
  }

  // ---------- Statements ----------

  lemma {:induction false} StmtRuns(m: Machine, w: World, d: nat, b: Builder, t: AST, s: State, env: Env,
                                    keys: set<string>, track: Tracked, held: bool)
    returns (s': State)
    requires w.host == m.h && WellFormed(b) && LowerStmt(b, t).Ok? && Within(LowerStmt(b, t).value, m)
    requires BalancedStmt(b, t, keys, track.exact) && RunnableStmt(m.h, t) && (held ==> RootedStmt(t))
    requires ReadyAt(m, b, s, env, track, held)
    ensures StmtRan(m, b, s, LowerStmt(b, t).value, Render(w, d, t, env), s', From(track, LowerStmt(b, t).value), held)
    decreases t, 4
  {
    hide *;
    match t
    case Statements(l) =>
      ListParts(w, d, b, l, env, keys, track.exact);
      s' := StmtsRuns(m, w, d, b, l, s, env, keys, track, held);
    case Raw(text) => s' := RawRuns(m, w, d, b, text, s, env, track, held);
    case Print(e) =>
      PrintIsRooted(e);
      s' := PrintRuns(m, w, d, b, e, s, env, track, held);
    case If(c, a, els) => s' := IfRuns(m, w, d, b, c, a, els, s, env, keys, track, held);
    case For(k, v, it, a, els) => s' := ForRuns(m, w, d, b, k, v, it, a, els, s, env, keys, track, held);
    case Include(_, _, _) =>
      NoIncludes(b, t);
      assert false;
  }

  lemma PrintIsRooted(e: Expr)
    ensures RootedStmt(Print(e)) <==> Rooted(e)
  {
    hide Rooted;
  }

  lemma NoIncludes(b: Builder, t: AST)
    requires t.Include?
    ensures LowerStmt(b, t).Err?
  {
  }

  ghost predicate BalancedStmts(b: Builder, l: seq<AST>, keys: set<string>, exact: bool) {
    exact ==> ReleasableStmts(l, keys) && KeysMatch(b, keys)
  }

  ghost predicate BalancedOpt(b: Builder, o: Option<AST>, keys: set<string>, exact: bool) {
    exact ==> ReleasableOpt(o, keys) && KeysMatch(b, keys)
  }

  lemma ListParts(w: World, d: nat, b: Builder, l: seq<AST>, env: Env, keys: set<string>, exact: bool)
    ensures LowerStmt(b, Statements(l)) == LowerStmts(b, l)
    ensures Render(w, d, Statements(l), env) == RenderAll(w, d, l, env)
    ensures RunnableStmt(w.host, Statements(l)) ==> RunnableStmts(w.host, l)
    ensures BalancedStmt(b, Statements(l), keys, exact) ==> BalancedStmts(b, l, keys, exact)
    ensures RootedStmt(Statements(l)) <==> RootedStmts(l)
  {
    hide LowerStmts, RenderAll, RunnableStmts, ReleasableStmts, KeysMatch, RootedStmts;
  }

  lemma {:induction false} OptRuns(m: Machine, w: World, d: nat, b: Builder, o: Option<AST>, s: State, env: Env,
                                   keys: set<string>, track: Tracked, held: bool)
    returns (s': State)
    requires w.host == m.h && WellFormed(b) && LowerOpt(b, o).Ok? && Within(LowerOpt(b, o).value, m)
    requires BalancedOpt(b, o, keys, track.exact) && RunnableOpt(m.h, o) && (held ==> RootedOpt(o))
    requires ReadyAt(m, b, s, env, track, held)
    ensures StmtRan(m, b, s, LowerOpt(b, o).value, RenderOpt(w, d, o, env), s', From(track, LowerOpt(b, o).value), held)
    decreases o, 0
  {
    match o
    case None =>
      hide *;
      OptNone(w, d, b, env);
      ReadyAtParts(m, b, s, env, track, held);
      NothingRan(m, b, s, From(track, b), held);
      s' := s;
    case Some(t) =>
      hide *;
      OptSome(w, d, b, t, env, keys, track.exact);
      s' := StmtRuns(m, w, d, b, t, s, env, keys, track, held);
  }

  lemma OptNone(w: World, d: nat, b: Builder, env: Env)
    ensures LowerOpt(b, None) == Ok(b) && RenderOpt(w, d, None, env) == NOTHING
  {
  }

  lemma OptSome(w: World, d: nat, b: Builder, t: AST, env: Env, keys: set<string>, exact: bool)
    ensures LowerOpt(b, Some(t)) == LowerStmt(b, t) && RenderOpt(w, d, Some(t), env) == Render(w, d, t, env)
    ensures RunnableOpt(w.host, Some(t)) ==> RunnableStmt(w.host, t)
    ensures BalancedOpt(b, Some(t), keys, exact) ==> BalancedStmt(b, t, keys, exact)
    ensures RootedOpt(Some(t)) <==> RootedStmt(t)
  {
    hide LowerStmt, Render, RunnableStmt, ReleasableStmt, KeysMatch, RootedStmt;
  }

  lemma StmtsParts(w: World, d: nat, b: Builder, l: seq<AST>, env: Env, keys: set<string>, exact: bool)
    requires l != [] && LowerStmts(b, l).Ok? && RunnableStmts(w.host, l) && BalancedStmts(b, l, keys, exact)
    ensures LowerStmt(b, l[0]).Ok?
    ensures LowerStmts(b, l) == LowerStmts(LowerStmt(b, l[0]).value, l[1..])
    ensures RenderAll(w, d, l, env) == Then(Render(w, d, l[0], env), RenderAll(w, d, l[1..], env))
    ensures RunnableStmt(w.host, l[0]) && RunnableStmts(w.host, l[1..]) && BalancedStmt(b, l[0], keys, exact)
    ensures exact ==> ReleasableStmts(l[1..], keys) && KeysMatch(b, keys)
    ensures RootedStmts(l) <==> RootedStmt(l[0]) && RootedStmts(l[1..])
  {
    hide LowerStmt, Render, RunnableStmt, ReleasableStmt, KeysMatch, RootedStmt;
  }

  lemma StmtsGrown(b: Builder, l: seq<AST>, keys: set<string>, exact: bool)
    requires WellFormed(b) && LowerStmts(b, l).Ok? && BalancedStmts(b, l, keys, exact)
    ensures StmtGrown(b, LowerStmts(b, l).value, exact)
  {
    hide LowerStmts, ReleasableStmts, KeysMatch, StmtGrown, WellFormed;
    LowerStmtsGrown(b, l, keys, exact);
  }

  lemma IsBalancedStmts(b: Builder, l: seq<AST>, keys: set<string>, exact: bool)
    requires exact ==> ReleasableStmts(l, keys) && KeysMatch(b, keys)
    ensures BalancedStmts(b, l, keys, exact)
  {
    hide ReleasableStmts, KeysMatch;
  }

  lemma ThenFails(a: Outcome, b: Outcome)
    requires !a.ok
    ensures Then(a, b) == a
  {
  }

  lemma {:induction false} StmtsRuns(m: Machine, w: World, d: nat, b: Builder, l: seq<AST>, s: State, env: Env,
                                     keys: set<string>, track: Tracked, held: bool)
    returns (s': State)
    requires w.host == m.h && WellFormed(b) && LowerStmts(b, l).Ok? && Within(LowerStmts(b, l).value, m)
    requires BalancedStmts(b, l, keys, track.exact) && RunnableStmts(m.h, l) && (held ==> RootedStmts(l))
    requires ReadyAt(m, b, s, env, track, held)
    ensures StmtRan(m, b, s, LowerStmts(b, l).value, RenderAll(w, d, l, env), s', From(track, LowerStmts(b, l).value),
                    held)
    decreases l, 0
  {
    if l == [] {
      NothingRan(m, b, s, From(track, b), held);
      s' := s;
    } else {
      hide *;
      StmtsParts(w, d, b, l, env, keys, track.exact);
      var b1 := LowerStmt(b, l[0]).value;
      var b2 := LowerStmts(b1, l[1..]).value;
      LowerStmtGrown(b, l[0], keys, track.exact);
      StmtGrownParts(b, b1, track.exact);
      if track.exact { KeysKeptByStmt(b, b1, track.exact, keys); }
      IsBalancedStmts(b1, l[1..], keys, track.exact);
      StmtsGrown(b1, l[1..], keys, track.exact);
      StmtGrownParts(b1, b2, track.exact);
      WithinGrows(b1, b2, m);
      var o1, o2 := Render(w, d, l[0], env), RenderAll(w, d, l[1..], env);
      var s1 := StmtRuns(m, w, d, b, l[0], s, env, keys, track, held);
      if o1.ok {
        RanOkParts(m, b, s, b1, o1, s1, From(track, b1), held);
        ReadyAfterStmt(m, b, b1, s, s1, env, track, held);
        s' := StmtsRuns(m, w, d, b1, l[1..], s1, env, keys, track, held);
        RanThen(m, b, s, b1, s1, b2, s', o1, o2, From(track, b1), From(track, b2), held);
      } else {
        s' := s1;
        ThenFails(o1, o2);
        FailedAnywhere(m, b, s, b1, b2, o1, s1, From(track, b1), From(track, b2), held);
      }
    }
  }

  lemma ReadyAfterStmt(m: Machine, b: Builder, c: Builder, s: State, s': State, env: Env, track: Tracked, held: bool)
    requires WellFormed(b) && ReadyAt(m, b, s, env, track, held) && AgreeBelow(s, s', b.next) && c.over == b.over
    requires b.next <= c.next && Owes(b, c, multiset{}, track.exact) && Alive(c, s', From(track, c))
    ensures ReadyAt(m, c, s', env, track, held)
  {
    hide *;
    ReadyAtParts(m, b, s, env, track, held);
    KeepsLater(b, c, multiset{}, track.exact, track);
    OwesCounts(b, c, multiset{}, track.exact);
    ReadyThen(m, b, c, s, s', env, track, held);
  }

  // ---------- Printing ----------

  /** Printing a value appends its text. */
  lemma PrintEmits(m: Machine, b: Builder, v: Operand, s: State, x: Value, track: Tracked) returns (s': State)
    requires Open(b) && Within(Emit(b, CallPrint(v)), m) && Operands(b, s, v, x, v, x, track)
    ensures StmtRan(m, b, s, Emit(b, CallPrint(v)), Outcome(Show(m.h, x), true), s', track, false)
    ensures Uses2(s, s', v, v)
  {
    s' := Touch(s, v).(out := s.out + Show(m.h, x));
    assert Exec(m, CallPrint(v), s) == Some(s');
    assert Alive(Emit(b, CallPrint(v)), s', track);
    assert AgreeBelow(s, s', b.next);
    hide Reaches, Exec;
    EmitRuns(m, b, CallPrint(v), s, s');
  }

  lemma RanHeld(m: Machine, b: Builder, s: State, b': Builder, o: Outcome, s': State, track: Tracked, held: bool)
    requires StmtRan(m, b, s, b', o, s', track, false) && (held ==> s'.dangling == s.dangling)
    ensures StmtRan(m, b, s, b', o, s', track, held)
  {
    hide Reaches, End, AgreeBelow, Alive;
  }

  lemma RawRuns(m: Machine, w: World, d: nat, b: Builder, text: string, s: State, env: Env, track: Tracked, held: bool)
    returns (s': State)
    requires w.host == m.h && WellFormed(b) && LowerStmt(b, Raw(text)).Ok? && Within(LowerStmt(b, Raw(text)).value, m)
    requires ReadyAt(m, b, s, env, track, held)
    ensures StmtRan(m, b, s, LowerStmt(b, Raw(text)).value, Render(w, d, Raw(text), env), s',
                    From(track, LowerStmt(b, Raw(text)).value), held)
  {
    hide *;
    var v := ConstString(text);
    RawParts(m, w, d, b, text, env, s);
    ReadyAtParts(m, b, s, env, track, held);
    WellFormedOpen(b);
    ConstantOperand(b, s, text, From(track, b));
    s' := PrintEmits(m, b, v, s, Str(text), From(track, b));
    RanHeld(m, b, s, Emit(b, CallPrint(v)), Outcome(Show(m.h, Str(text)), true), s', From(track, b), held);
    SameAt(b, Emit(b, CallPrint(v)), track);
  }

  lemma SameAt(b: Builder, c: Builder, track: Tracked)
    ensures b.next == c.next ==> From(track, b) == From(track, c)
    ensures forall i :: Emit(b, i).next == b.next
  {
  }

  lemma RawParts(m: Machine, w: World, d: nat, b: Builder, text: string, env: Env, s: State)
    ensures LowerStmt(b, Raw(text)) == Ok(Emit(b, CallPrint(ConstString(text))))
    ensures Render(w, d, Raw(text), env) == Outcome(Show(m.h, Str(text)), true)
  {
    hide Emit;
  }

  lemma ConstantOperand(b: Builder, s: State, text: string, track: Tracked)
    requires Alive(b, s, track)
    ensures Operands(b, s, ConstString(text), Str(text), ConstString(text), Str(text), track)
    ensures forall s' :: Uses2(s, s', ConstString(text), ConstString(text)) ==> s'.dangling == s.dangling
  {
    hide Alive;
  }

  lemma PrintUnfolds(b: Builder, e: Expr)
    requires LowerStmt(b, Print(e)).Ok?
    ensures LowerExpr(b, e).Ok?
    ensures var c := LowerExpr(b, e).value;
            var b1 := Emit(c.b, CallPrint(c.v));
            LowerStmt(b, Print(e)) == if IsVariantOperand(c.v) then GoesOutOfScope(b1, c.v) else Ok(b1)
  {
    hide LowerExpr, Emit, GoesOutOfScope;
  }

  lemma PrintParts(w: World, d: nat, e: Expr, env: Env)
    ensures var x := Eval(w.host, e, env);
            Render(w, d, Print(e), env) == if x.None? then FAILED else Outcome(Show(w.host, x.value), true)
    ensures RunnableStmt(w.host, Print(e)) <==> Runnable(w.host, e)
  {
    hide Eval, Show, Runnable;
  }

  /** Releasing a temporary after printing it. */
  lemma RanRelease(m: Machine, b: Builder, s: State, b1: Builder, o: Outcome, s1: State, v: Operand, track: Tracked,
                   held: bool)
    returns (s': State)
    requires StmtRan(m, b, s, b1, o, s1, track, held) && o.ok && Open(b1) && v.Reg? && v.ty.VariantPtr?
    requires GoesOutOfScope(b1, v).Ok? && Within(GoesOutOfScope(b1, v).value, m) && Tracks(track, v.id)
    ensures StmtRan(m, b, s, GoesOutOfScope(b1, v).value, o, s', track, held) && s'.dangling == s1.dangling
  {
    hide *;
    RanOkParts(m, b, s, b1, o, s1, track, held);
    var b2 := GoesOutOfScope(b1, v).value;
    s' := ReleaseRuns(m, b1, v, s1, track);
    ReachesTrans(m, End(b, s), End(b1, s1), End(b2, s'));
    SameRegs(s1, s', v, b.next);
    AgreeTrans(s, s1, s', b.next, b.next);
    RanOk(m, b, s, b2, o, s', track, held);
  }

  lemma PrintGrows(b: Builder, e: Expr)
    requires WellFormed(b) && LowerStmt(b, Print(e)).Ok?
    ensures var b' := LowerStmt(b, Print(e)).value; WellFormed(b') && b.next <= b'.next
  {
    hide LowerStmt, KeysMatch, ReleasableStmt;
    LowerStmtGrown(b, Print(e), {}, false);
    hide *;
    StmtGrownParts(b, LowerStmt(b, Print(e)).value, false);
    GrowsOpen(b, LowerStmt(b, Print(e)).value);
  }

  /** A printed value is used once more; whatever is computed is used, so storage is used after
      its end exactly when an attribute of a temporary is found. */
  lemma PrintRuns(m: Machine, w: World, d: nat, b: Builder, e: Expr, s: State, env: Env, track: Tracked, held: bool)
    returns (s': State)
    requires w.host == m.h && WellFormed(b) && LowerStmt(b, Print(e)).Ok? && Within(LowerStmt(b, Print(e)).value, m)
    requires RunnableStmt(m.h, Print(e)) && ReadyAt(m, b, s, env, track, held)
    ensures StmtRan(m, b, s, LowerStmt(b, Print(e)).value, Render(w, d, Print(e), env), s',
                    From(track, LowerStmt(b, Print(e)).value), held && Rooted(e))
    ensures held && Eval(m.h, e, env).Some? ==>
              (s'.dangling <==> s.dangling || TakesFromTemporary(m.h, e, env))
  {
    hide *;
    PrintUnfolds(b, e);
    PrintParts(w, d, e, env);
    PrintGrows(b, e);
    ReadyAtParts(m, b, s, env, track, held);
    ExprGrows(b, e);
    var c := LowerExpr(b, e).value;
    var b1, b' := Emit(c.b, CallPrint(c.v)), LowerStmt(b, Print(e)).value;
    var t := From(track, b);
    AtRaises(track, b, b');
    OpenEmit(c.b, CallPrint(c.v));
    if IsVariantOperand(c.v) { ReleaseStage(m, b1, c.v); }
    WithinEmit(c.b, CallPrint(c.v), m);
    var s1 := ExprRuns(m, b, e, s, env, t, held);
    RanParts(m, b, s, e, env, c, s1, t, held);
    if held { StoredParts(m.h, b, s, e, env, c, s1, t); }
    if Eval(m.h, e, env).None? {
      s' := s1;
      ExprFailed(m, b, s, c, b', s', t, From(track, b'), held && Rooted(e));
    } else {
      var x := Eval(m.h, e, env).value;
      var o := Outcome(Show(m.h, x), true);
      ComputedParts(m, b, s, c, s1, x, t);
      IsOperand(c.b, s1, c.v, x, t);
      var s2 := PrintEmits(m, c.b, c.v, s1, x, t);
      RanAfter(m, b, s, c.b, s1, b1, s2, o, t, false);
      s' := s2;
      if IsVariantOperand(c.v) {
        OperandsParts(c.b, s1, c.v, x, c.v, x, t);
        s' := RanRelease(m, b, s, b1, o, s2, c.v, t, false);
      }
      if held { PrintedStored(m.h, b, s, e, env, c, s1, s2, t); }
      RanRaise(m, b, s, b', o, s', t, From(track, b'), false);
      RanHeld(m, b, s, b', o, s', From(track, b'), held && Rooted(e));
    }
  }

  lemma PrintedStored(h: Host, b: Builder, s: State, e: Expr, env: Env, c: Computed, s1: State, s': State,
                      track: Tracked)
    requires Stored(h, b, s, e, env, c, s1, track) && Eval(h, e, env).Some? && Uses2(s1, s', c.v, c.v)
    requires Alive(c.b, s1, track) && Proper(s1, c.v, track) && CountsKept(b, c.b)
    requires IsVariant(e) ==> c.v.Reg? && c.v.ty.VariantPtr?
    ensures s'.dangling <==> s.dangling || TakesFromTemporary(h, e, env)
    ensures Rooted(e) ==> s'.dangling == s.dangling
  {
    hide Placed, Alive, Proper, CountsKept, Eval, Dangles, TakesFromTemporary, Usable, IsVariant;
    StaysAgreed(c.b, s1);
    UsableUnlessGone(h, b, e, env, c, s1, c.b, s1, track);
    LosesExactly(h, e, env);
    if Rooted(e) { RootedStays(h, e, env); }
  }

  // ---------- Conditionals ----------

  /** Where the blocks of a conditional start and end. */
  lemma IfStages(m: Machine, c: Builder, cond: Operand, b1: Builder, b2: Builder, s: State)
    requires Open(c) && Grows(IfStart(c, cond), b1) && |c.blocks| + 2 < |b1.blocks|
    requires Grows(IfElse(b1, |c.blocks|), b2) && |c.blocks| + 2 < |b2.blocks|
    requires Within(IfEnd(b2, |c.blocks|), m)
    ensures var n := |c.blocks|;
            && End(IfStart(c, cond), s) == At(n, 0, s)
            && End(IfElse(b1, n), s) == At(n + 1, 0, s)
            && End(IfEnd(b2, n), s) == At(n + 2, 0, s)
            && Within(Terminate(b2, Br(n + 2)), m) && Within(b2, m)
            && Within(Terminate(b1, Br(n + 2)), m) && Within(b1, m)
            && Within(Terminate(c, CondBr(cond, n, n + 1)), m) && Within(c, m)
  {
    var n := |c.blocks|;
    var s0, e, f := IfStart(c, cond), IfElse(b1, n), IfEnd(b2, n);
    assert s0.blocks[n + 1] == s0.blocks[n + 2] == EMPTY_BLOCK;
    assert b1.blocks[n + 1] == b1.blocks[n + 2] == EMPTY_BLOCK;
    assert e.blocks[n + 2] == EMPTY_BLOCK && b2.blocks[n + 2] == EMPTY_BLOCK;
    IfWithin(m, c, cond, b1, b2);
  }

  lemma IfWithin(m: Machine, c: Builder, cond: Operand, b1: Builder, b2: Builder)
    requires Open(c) && Grows(IfStart(c, cond), b1) && |c.blocks| + 2 < |b1.blocks|
    requires Grows(IfElse(b1, |c.blocks|), b2) && |c.blocks| + 2 < |b2.blocks|
    requires Within(IfEnd(b2, |c.blocks|), m)
    ensures var n := |c.blocks|;
            && Within(Terminate(b2, Br(n + 2)), m) && Within(b2, m)
            && Within(Terminate(b1, Br(n + 2)), m) && Within(b1, m)
            && Within(Terminate(c, CondBr(cond, n, n + 1)), m) && Within(c, m)
  {
    var n := |c.blocks|;
    hide Grows;
    SameBlocksWithin(IfEnd(b2, n), Terminate(b2, Br(n + 2)), m);
    GrowsOpen(IfElse(b1, n), b2);
    WithinTerminate(b2, Br(n + 2), m);
    WithinGrows(IfElse(b1, n), b2, m);
    SameBlocksWithin(IfElse(b1, n), Terminate(b1, Br(n + 2)), m);
    GrowsOpen(IfStart(c, cond), b1);
    WithinTerminate(b1, Br(n + 2), m);
    WithinGrows(IfStart(c, cond), b1, m);
    IfStartWithin(m, c, cond);
  }

  lemma IfStartWithin(m: Machine, c: Builder, cond: Operand)
    requires Open(c) && Within(IfStart(c, cond), m)
    ensures Within(Terminate(c, CondBr(cond, |c.blocks|, |c.blocks| + 1)), m) && Within(c, m)
  {
    var n := |c.blocks|;
    var t := Terminate(c, CondBr(cond, n, n + 1));
    forall i | 0 <= i < |t.blocks|
      ensures BlockLe(t.blocks[i], m.blocks[i])
    {
      assert BlockLe(IfStart(c, cond).blocks[i], m.blocks[i]);
      assert IfStart(c, cond).blocks[i] == t.blocks[i];
    }
    WithinTerminate(c, CondBr(cond, n, n + 1), m);
  }

  lemma IfParts(w: World, d: nat, c: Expr, a: AST, els: Option<AST>, env: Env)
    ensures var x := Eval(w.host, c, env);
            Render(w, d, If(c, a, els), env)
            == if x.None? then FAILED else if IsTrue(w.host, x.value) then Render(w, d, a, env)
                                           else RenderOpt(w, d, els, env)
    ensures RunnableStmt(w.host, If(c, a, els)) ==>
                Runnable(w.host, c) && RunnableStmt(w.host, a) && RunnableOpt(w.host, els)
    ensures RootedStmt(If(c, a, els)) ==> Rooted(c) && RootedStmt(a) && RootedOpt(els)
  {
    hide Eval, Runnable, Rooted;
  }

  /** From the end of one branch to the end of the conditional. */
  lemma RanBranch(m: Machine, b: Builder, s: State, b1: Builder, s1: State, f: Builder, target: nat, o: Outcome,
                  t: Tracked, track: Tracked, held: bool)
    requires StmtRan(m, b, s, b1, o, s1, t, held) && Open(b1) && Within(Terminate(b1, Br(target)), m)
    requires End(f, s1) == At(target, 0, s1) && track.exact == t.exact && (o.ok ==> Alive(f, s1, track))
    ensures StmtRan(m, b, s, f, o, s1, track, held)
  {
    hide *;
    if o.ok {
      RanOkParts(m, b, s, b1, o, s1, t, held);
      TerminateRuns(m, b1, Br(target), s1);
      ReachesTrans(m, End(b, s), End(b1, s1), End(f, s1));
      RanOk(m, b, s, f, o, s1, track, held);
    } else {
      FailedAnywhere(m, b, s, b1, f, o, s1, t, track, held);
    }
  }

  lemma BoolCondition(m: Machine, c: Expr, v: Operand, env: Env)
    requires TypeOfOperand(v).I1? && IsVariantOperand(v) == IsVariant(c)
    requires !IsVariant(c) ==> TypeOfOperand(v) == LlvmType(TypeOf(c))
    requires Eval(m.h, c, env).Some? && (!IsVariant(c) ==> HasType(Eval(m.h, c, env).value, TypeOf(c)))
    ensures Eval(m.h, c, env).value.Bool?
    ensures IsTrue(m.h, Eval(m.h, c, env).value) == Eval(m.h, c, env).value.b
  {
    hide Eval, IsVariant, TypeOf;
  }

  /** Control moves to a point with the same variables and the same temporaries. */
  lemma JumpReady(m: Machine, a: Builder, b: Builder, s: State, env: Env, track: Tracked, held: bool)
    requires WellFormed(a) && WellFormed(b) && ReadyAt(m, a, s, env, track, held) && b.over == a.over
    requires Owes(a, b, multiset{}, track.exact) && a.next <= b.next
    ensures ReadyAt(m, b, s, env, track, held)
  {
    hide *;
    ReadyAtParts(m, a, s, env, track, held);
    AliveLater(a, b, s, track);
    AgreeSelf(s, a.next);
    ReadyAfterStmt(m, a, b, s, s, env, track, held);
  }

  lemma AgreeSelf(s: State, n: nat)
    ensures AgreeBelow(s, s, n)
  {
  }

  /** Ready to go on after an expression, whose temporaries are no longer in use. */
  lemma ReadyAfterExpr(m: Machine, b: Builder, c: Builder, s: State, s': State, env: Env, owed: multiset<Operand>,
                       track: Tracked, held: bool)
    requires WellFormed(b) && ReadyAt(m, b, s, env, track, held) && AgreeBelow(s, s', b.next) && c.over == b.over
    requires b.next <= c.next && Owes(b, c, owed, track.exact) && Alive(c, s', From(track, b)) && WellFormed(c)
    ensures ReadyAt(m, c, s', env, track, held)
  {
    hide *;
    ReadyAtParts(m, b, s, env, track, held);
    AtRaises(track, b, c);
    AliveRaise(c, s', From(track, b), From(track, c));
    KeepsLater(b, c, owed, track.exact, track);
    OwesCounts(b, c, owed, track.exact);
    ReadyThen(m, b, c, s, s', env, track, held);
  }

  /** What lowering guarantees about the builders of a conditional. */
  lemma IfBuilders(c: Builder, cond: Operand, a: AST, els: Option<AST>, p: Builder, b1: Builder, e: Builder,
                   b2: Builder, keys: set<string>, exact: bool)
    requires WellFormed(c) && p == IfStart(c, cond) && LowerStmt(p, a) == Ok(b1) && |c.blocks| + 2 < |b1.blocks|
    requires e == IfElse(b1, |c.blocks|) && LowerOpt(e, els) == Ok(b2) && |c.blocks| + 2 < |b2.blocks|
    requires exact ==> ReleasableStmt(a, keys) && ReleasableOpt(els, keys) && KeysMatch(c, keys)
    ensures WellFormed(p) && Grows(p, b1) && Owes(c, p, multiset{}, exact) && p.over == c.over && p.next == c.next
    ensures BalancedStmt(p, a, keys, exact) && Owes(p, b1, multiset{}, exact) && Owes(e, b2, multiset{}, exact)
    ensures WellFormed(b2) && WellFormed(b1) && WellFormed(e) && Grows(e, b2) && e.over == c.over
    ensures Owes(c, e, multiset{}, exact)
    ensures BalancedOpt(e, els, keys, exact) && c.next <= e.next && Open(b1) && Open(b2)
    ensures var f := IfEnd(b2, |c.blocks|);
            WellFormed(f) && Owes(b1, f, multiset{}, exact) && Owes(b2, f, multiset{}, exact)
  {
    hide *;
    var n := |c.blocks|;
    var f := IfEnd(b2, n);
    WellFormedOpen(c);
    IfStartKeeps(c, cond);
    SameRefs(c, p, exact, keys);
    IsBalanced(p, a, keys, exact);
    LowerStmtGrown(p, a, keys, exact);
    StmtGrownParts(p, b1, exact);
    if exact { KeysKeptByStmt(p, b1, exact, keys); }
    IfElseOpen(c, cond, b1);
    SameRefs(b1, e, exact, keys);
    IsBalancedOpt(e, els, keys, exact);
    LowerOptGrown(e, els, keys, exact);
    StmtGrownParts(e, b2, exact);
    IfEndKeeps(b2, n);
    IfGrows(c, cond, b1, b2);
    GrowsOpen(p, b1);
    GrowsOpen(e, b2);
    GrowsOpen(c, f);
    SameRefs(b2, f, exact, keys);
    OwesChain(c, p, b1, e, exact);
    OwesSame(b1, e, b2, f, exact);
  }

  lemma OwesSame(a: Builder, a': Builder, b: Builder, b': Builder, exact: bool)
    requires Owes(a', b, multiset{}, exact) && a'.refs == a.refs && a'.next == a.next && b'.refs == b.refs
    requires b'.next == b.next
    ensures Owes(a, b', multiset{}, exact)
  {
  }

  lemma IsBalancedOpt(b: Builder, o: Option<AST>, keys: set<string>, exact: bool)
    requires exact ==> ReleasableOpt(o, keys) && KeysMatch(b, keys)
    ensures BalancedOpt(b, o, keys, exact)
  {
    hide ReleasableOpt, KeysMatch;
  }

  lemma IfRuns(m: Machine, w: World, d: nat, b: Builder, cond: Expr, a: AST, els: Option<AST>, s: State, env: Env,
               keys: set<string>, track: Tracked, held: bool)
    returns (s': State)
    requires w.host == m.h && WellFormed(b) && LowerStmt(b, If(cond, a, els)).Ok?
    requires Within(LowerStmt(b, If(cond, a, els)).value, m)
    requires BalancedStmt(b, If(cond, a, els), keys, track.exact) && RunnableStmt(m.h, If(cond, a, els))
    requires (held ==> RootedStmt(If(cond, a, els))) && ReadyAt(m, b, s, env, track, held)
    ensures StmtRan(m, b, s, LowerStmt(b, If(cond, a, els)).value, Render(w, d, If(cond, a, els), env), s',
                    From(track, LowerStmt(b, If(cond, a, els)).value), held)
    decreases If(cond, a, els), 1
  {
    hide *;
    BalancedIf(b, cond, a, els, keys, track.exact);
    IfParts(w, d, cond, a, els, env);
    var c, p, b1, e, b2 := IfUnfolds(b, cond, a, els);
    var n := |c.b.blocks|;
    var f := IfEnd(b2, n);
    var t := From(track, b);
    LowerExprGrown(b, cond, keys, track.exact);
    ExprGrows(b, cond);
    ExprGrownParts(b, c, cond, keys, track.exact);
    StaticType(m.h, b, cond);
    if track.exact { KeysKept(b, c.b, OwedFor(c.v), track.exact, keys); }
    ConditionOwesNothing(c.v);
    IfBuilders(c.b, c.v, a, els, p, b1, e, b2, keys, track.exact);
    IfWithin(m, c.b, c.v, b1, b2);
    ReadyAtParts(m, b, s, env, track, held);
    var s1 := ExprRuns(m, b, cond, s, env, t, held);
    RanParts(m, b, s, cond, env, c, s1, t, held);
    if held { StoredParts(m.h, b, s, cond, env, c, s1, t); }
    if Eval(m.h, cond, env).None? {
      s' := s1;
      SameExact(track, b, f);
      ExprFailed(m, b, s, c, f, s', t, From(track, f), held);
    } else {
      var x := Eval(m.h, cond, env).value;
      ComputedParts(m, b, s, c, s1, x, t);
      BoolCondition(m, cond, c.v, env);
      ReadyAfterExpr(m, b, c.b, s, s1, env, OwedFor(c.v), track, held);
      IfStages(m, c.b, c.v, b1, b2, s1);
      TerminateRuns(m, c.b, CondBr(c.v, n, n + 1), s1);
      if x.b {
        var o := Render(w, d, a, env);
        JumpReady(m, c.b, p, s1, env, track, held);
        s' := StmtRuns(m, w, d, p, a, s1, env, keys, track, held);
        ReadyAtParts(m, p, s1, env, track, held);
        KeepsLater(p, b1, multiset{}, track.exact, track);
        BranchEnds(m, c.b, c.v, b1, b2, p, s1, b1, s', o, track, held);
        ReachesTrans(m, End(b, s), End(c.b, s1), End(p, s1));
        RanAfter(m, b, s, p, s1, f, s', o, From(track, f), held);
      } else {
        var o := RenderOpt(w, d, els, env);
        JumpReady(m, c.b, e, s1, env, track, held);
        s' := OptRuns(m, w, d, e, els, s1, env, keys, track, held);
        ReadyAtParts(m, e, s1, env, track, held);
        KeepsLater(e, b2, multiset{}, track.exact, track);
        BranchEnds(m, c.b, c.v, b1, b2, e, s1, b2, s', o, track, held);
        ReachesTrans(m, End(b, s), End(c.b, s1), End(e, s1));
        RanAfter(m, b, s, e, s1, f, s', o, From(track, f), held);
      }
    }
  }

  lemma SameExact(track: Tracked, a: Builder, b: Builder)
    ensures From(track, a).exact == From(track, b).exact == track.exact
  {
  }

  lemma BranchEnds(m: Machine, c: Builder, cond: Operand, b1: Builder, b2: Builder, p: Builder, s: State, last: Builder,
                   s': State, o: Outcome, track: Tracked, held: bool)
    requires Open(c) && Grows(IfStart(c, cond), b1) && |c.blocks| + 2 < |b1.blocks|
    requires Grows(IfElse(b1, |c.blocks|), b2) && |c.blocks| + 2 < |b2.blocks|
    requires Within(IfEnd(b2, |c.blocks|), m) && StmtRan(m, p, s, last, o, s', From(track, last), held)
    requires Open(last) && Within(Terminate(last, Br(|c.blocks| + 2)), m) && WellFormed(last) && Keeps(last, track)
    requires WellFormed(IfEnd(b2, |c.blocks|)) && Owes(last, IfEnd(b2, |c.blocks|), multiset{}, track.exact)
    ensures StmtRan(m, p, s, IfEnd(b2, |c.blocks|), o, s', From(track, IfEnd(b2, |c.blocks|)), held)
  {
    hide *;
    var f := IfEnd(b2, |c.blocks|);
    IfStages(m, c, cond, b1, b2, s');
    SameExact(track, last, f);
    if o.ok {
      RanOkParts(m, p, s, last, o, s', From(track, last), held);
      AliveLater(last, f, s', track);
    }
    RanBranch(m, p, s, last, s', f, |c.blocks| + 2, o, From(track, last), From(track, f), held);
  }

  // ---------- Loops ----------

  /** A loop and the builders of its compilation, one after the other. */
  datatype Loop = Loop(b: Builder, k: Option<string>, v: Option<string>, it: Expr, a: AST, els: Option<AST>,
                       c: Computed, p: Builder, body: Builder, b3: Builder, b4: Builder, b5: Builder, b6: Builder)

  function PartsIn(l: Loop): LoopParts {
    PartsOf(l.c.b, l.c.v)
  }

  function VarsIn(l: Loop): LoopVars {
    VarsOf(l.p, l.k.Some?, l.v.Some?)
  }

  /** The loop block before the registers of the loop were reserved. */
  function HeadOf(l: Loop): Builder {
    l.p.(next := l.c.b.next)
  }

  /** After the else body, and then without the loop's metadata. */
  function AfterOf(l: Loop): Builder
    requires PartsIn(l).after < |l.b6.blocks|
  {
    MoveTo(Terminate(l.b6, Br(PartsIn(l).after)), PartsIn(l).after)
  }

  function EndOf(l: Loop): Builder
    requires PartsIn(l).after < |l.b6.blocks|
  {
    AfterOf(l).(meta := AfterOf(l).meta - {l.c.v})
  }

  ghost predicate Staged(l: Loop) {
    LoopStages(l.b, l.k, l.v, l.it, l.a, l.els, l.c, l.p, l.body, l.b3, l.b4, l.b5, l.b6)
  }

  /** How each builder follows from the one before. */
  lemma StagedParts(l: Loop)
    requires Staged(l)
    ensures LowerExpr(l.b, l.it) == Ok(l.c) && IsVariantOperand(l.c.v)
    ensures PartsIn(l) == PartsOf(l.c.b, PartsIn(l).iterable) && PartsIn(l).iterable == l.c.v
    ensures l.p == LoopStart(l.c.b, PartsIn(l))
    ensures var b2 := LoopGet(l.p, PartsIn(l).meta, VarsIn(l));
            l.body == b2.(over := LoopOver(b2.over, l.k, l.v, VarsIn(l)))
    ensures BodyBegins(l.c.b, l.c.v, l.k, l.v, l.p, l.body)
    ensures LowerStmt(l.body, l.a) == Ok(l.b3)
    ensures DropVariables(l.b3, VarsIn(l)).Ok?
    ensures l.b4 == DropVariables(l.b3, VarsIn(l)).value.(over := l.b4.over)
    ensures PartsIn(l).loopElse < |l.b4.blocks| && LoopNext(l.b4, PartsIn(l)) == Ok(l.b5)
    ensures LowerOpt(l.b5, l.els) == Ok(l.b6) && PartsIn(l).after < |l.b6.blocks|
    ensures LowerStmt(l.b, For(l.k, l.v, l.it, l.a, l.els)) == GoesOutOfScope(EndOf(l), l.c.v)
            == LoopEnd(l.b6, PartsIn(l))
  {
    hide LowerExpr, LowerStmt, LowerOpt, LoopStart, LoopGet, LoopOver, LoopNext, DropVariables, Restore,
         GoesOutOfScope, Terminate, MoveTo;
  }

  /** What lowering guarantees about the builders of a loop. */
  lemma LoopIsBuilt(l: Loop, keys: set<string>, exact: bool)
    requires Staged(l) && WellFormed(l.b) && BalancedStmt(l.b, For(l.k, l.v, l.it, l.a, l.els), keys, exact)
    ensures ExprGrown(l.b, l.c, l.it, keys, exact) && Balanced(l.b, l.it, keys, exact)
    ensures WellFormed(l.c.b) && Open(l.c.b) && WellFormed(l.p) && Open(l.p) && WellFormed(HeadOf(l))
    ensures WellFormed(l.body) && WellFormed(l.b5)
    ensures Open(l.b3) && Open(l.b4) && Open(l.b6)
    ensures l.p.over == l.c.b.over && l.p.refs == l.c.b.refs && l.p.next == l.c.b.next + 3
    ensures BalancedStmt(l.body, l.a, BodyKeys(l.k, l.v, keys), exact) && BalancedOpt(l.b5, l.els, keys, exact)
    ensures Grows(l.p, l.body) && Grows(l.body, l.b3) && Grows(l.p, l.b4) && Grows(l.b5, l.b6)
    ensures Owes(l.p, l.b4, multiset{}, exact)
    ensures PartsIn(l).loopElse < |l.b4.blocks| && l.c.v in l.b4.meta && l.b4.meta[l.c.v] == PartsIn(l).meta
    ensures Owes(l.c.b, l.b5, multiset{}, exact) && l.b5.over == l.c.b.over && l.c.b.next <= l.b5.next
    ensures PartsIn(l).after < |l.b6.blocks| && WellFormed(EndOf(l)) && Owes(l.c.b, EndOf(l), multiset{}, exact)
    ensures l.p.next <= l.body.next <= l.b3.next && l.b4.next == l.b3.next
    ensures l.p.meta == l.c.b.meta[l.c.v := PartsIn(l).meta] && MetaLe(l.b4.meta, l.p.meta) && l.b5.meta == l.b4.meta
    ensures EndOf(l).refs == l.b6.refs && EndOf(l).next == l.b6.next && l.b5.next <= l.b6.next
    ensures EndOf(l).over == l.c.b.over
  {
    hide *;
    StagedParts(l);
    StagedIs(l);
    BalancedParts(l.b, l.k, l.v, l.it, l.a, l.els, keys, exact);
    LowerExprGrown(l.b, l.it, keys, exact);
    ExprGrownParts(l.b, l.c, l.it, keys, exact);
    if exact { KeysKept(l.b, l.c.b, OwedFor(l.c.v), exact, keys); }
    WellFormedOpen(l.c.b);
    LoopStartGrows(l.c.b, PartsIn(l));
    BodyStart(l.c.b, l.c.v, l.k, l.v, l.p, l.body, keys, exact);
    IsBalanced(l.body, l.a, BodyKeys(l.k, l.v, keys), exact);
    LowerStmtGrown(l.body, l.a, BodyKeys(l.k, l.v, keys), exact);
    StmtGrownParts(l.body, l.b3, exact);
    BodyEnd(l.b, l.k, l.v, l.it, l.a, l.els, l.c, l.p, l.body, l.b3, l.b4, l.b5, l.b6, keys, exact);
    IsBalancedOpt(l.b5, l.els, keys, exact);
    LowerOptGrown(l.b5, l.els, keys, exact);
    StmtGrownParts(l.b5, l.b6, exact);
    GrowsOpen(l.p, l.body);
    GrowsOpen(l.body, l.b3);
    GrowsOpen(l.p, l.b4);
    GrowsOpen(l.b5, l.b6);
    PartsAre(l);
    NextOpen(l.c.b, l.c.v, l.p, l.b4, l.b5);
    MetaKept(l.c.v, PartsIn(l).meta, l.p.meta, l.b4.meta);
    HeadWellFormed(l.c.b, l.p);
    HeadIs(l);
    DropNext(l.b3, VarsIn(l));
    LoopGrows(l.c.b, PartsIn(l), l.b4, l.b5, l.b6, AfterOf(l));
    GrowsOpen(l.c.b, AfterOf(l));
    EndIs(l);
    OwesChain(l.c.b, l.b5, l.b6, EndOf(l), exact);
    OwesWellFormed(l.c.b, EndOf(l), multiset{}, exact);
  }

  lemma StagedIs(l: Loop)
    ensures Staged(l) <==> LoopStages(l.b, l.k, l.v, l.it, l.a, l.els, l.c, l.p, l.body, l.b3, l.b4, l.b5, l.b6)
  {
    hide LoopStages;
  }

  lemma PartsAre(l: Loop)
    ensures PartsIn(l) == PartsOf(l.c.b, l.c.v) && PartsIn(l).meta == Meta(l.c.b.next, l.c.b.next + 1)
    ensures VarsIn(l) == VarsOf(l.p, l.k.Some?, l.v.Some?)
    ensures PartsIn(l).after < |l.b6.blocks| ==>
              AfterOf(l) == MoveTo(Terminate(l.b6, Br(PartsIn(l).after)), PartsIn(l).after)
  {
  }

  lemma MetaKept(o: Operand, meta: Meta, started: map<Operand, Meta>, after: map<Operand, Meta>)
    requires o in started && started[o] == meta && MetaLe(after, started) && o in after
    ensures after[o] == meta
  {
  }

  lemma HeadWellFormed(c: Builder, p: Builder)
    requires WellFormed(c) && p.refs == c.refs && p.over == c.over && Open(p)
    ensures WellFormed(p.(next := c.next))
  {
  }

  lemma HeadIs(l: Loop)
    ensures HeadOf(l) == l.p.(next := l.c.b.next)
  {
  }

  lemma DropNext(b: Builder, vars: LoopVars)
    requires DropVariables(b, vars).Ok?
    ensures DropVariables(b, vars).value.next == b.next
  {
  }

  lemma EndIs(l: Loop)
    requires PartsIn(l).after < |l.b6.blocks|
    ensures var e := EndOf(l);
            e.refs == l.b6.refs && e.next == l.b6.next && e.over == l.b6.over && (Open(AfterOf(l)) ==> Open(e))
  {
  }

  /** Every stage of the loop is part of the function, and where its blocks start. */
  lemma LoopWithin(m: Machine, l: Loop, s: State)
    requires Staged(l) && Open(l.c.b) && Open(l.p) && Open(l.b3) && Open(l.b4) && Open(l.b6)
    requires Grows(l.p, l.body) && Grows(l.body, l.b3) && Grows(l.p, l.b4) && Grows(l.b5, l.b6)
    requires PartsIn(l).after < |l.b6.blocks| && PartsIn(l).loopElse < |l.b4.blocks|
    requires l.c.v in l.b4.meta && l.b4.meta[l.c.v] == PartsIn(l).meta
    requires Within(EndOf(l), m)
    ensures Within(Terminate(l.b6, Br(PartsIn(l).after)), m) && Within(l.b6, m) && Within(l.b5, m) && Within(l.b4, m)
    ensures DropVariables(l.b3, VarsIn(l)).Ok? && Within(DropVariables(l.b3, VarsIn(l)).value, m)
    ensures Within(l.b3, m) && Within(l.body, m) && Within(l.p, m)
    ensures End(l.p, s) == End(HeadOf(l), s) == At(PartsIn(l).loop, 0, s)
    ensures End(l.b5, s) == At(PartsIn(l).loopElse, 0, s) && End(EndOf(l), s) == At(PartsIn(l).after, 0, s)
  {
    hide *;
    var parts := PartsIn(l);
    StagedParts(l);
    PartsAre(l);
    EndBlocks(l);
    SameBlocksWithin(EndOf(l), Terminate(l.b6, Br(parts.after)), m);
    WithinTerminate(l.b6, Br(parts.after), m);
    WithinGrows(l.b5, l.b6, m);
    NextStages(m, l.b4, parts, parts.meta);
    DropStages(m, l.b3, VarsIn(l));
    DropBlocks(l);
    SameBlocksWithin(l.b4, DropVariables(l.b3, VarsIn(l)).value, m);
    WithinGrows(l.body, l.b3, m);
    WithinGrows(l.p, l.body, m);
    LoopPositions(l.c.b, parts, l.b4, l.b5, l.b6, s);
    HeadIs(l);
    SameEnd(HeadOf(l), l.p, s);
    SameEnd(EndOf(l), AfterOf(l), s);
  }

  lemma EndBlocks(l: Loop)
    requires PartsIn(l).after < |l.b6.blocks|
    ensures EndOf(l).blocks == Terminate(l.b6, Br(PartsIn(l).after)).blocks
    ensures EndOf(l).blocks == AfterOf(l).blocks && EndOf(l).cur == AfterOf(l).cur
  {
  }

  lemma DropBlocks(l: Loop)
    requires DropVariables(l.b3, VarsIn(l)).Ok? && l.b4 == DropVariables(l.b3, VarsIn(l)).value.(over := l.b4.over)
    ensures var d := DropVariables(l.b3, VarsIn(l)).value;
            d.blocks == l.b4.blocks && d.cur == l.b4.cur && d.refs == l.b4.refs && d.next == l.b4.next
  {
  }

  /** Each of the loop's blocks is still empty when its turn comes. */
  lemma LoopPositions(c: Builder, parts: LoopParts, b4: Builder, b5: Builder, b6: Builder, s: State)
    requires Open(c) && parts == PartsOf(c, parts.iterable) && Grows(LoopStart(c, parts), b4)
    requires parts.loopElse < |b4.blocks| && LoopNext(b4, parts) == Ok(b5) && Grows(b5, b6) && parts.after < |b6.blocks|
    ensures End(LoopStart(c, parts), s) == At(parts.loop, 0, s) && End(b5, s) == At(parts.loopElse, 0, s)
    ensures End(MoveTo(Terminate(b6, Br(parts.after)), parts.after), s) == At(parts.after, 0, s)
  {
    LoopStartGrows(c, parts);
    assert b4.blocks[parts.loopElse] == b4.blocks[parts.after] == EMPTY_BLOCK;
    assert b5.blocks[parts.loopElse] == b5.blocks[parts.after] == EMPTY_BLOCK;
    assert b6.blocks[parts.after] == EMPTY_BLOCK;
  }

  /** The machine is at the start of iteration i. */
  ghost predicate LoopAt(m: Machine, l: Loop, s: State, entries: seq<Entry>, root: Option<nat>, i: nat, env: Env,
                         track: Tracked, held: bool) {
    && LoopRegs(s, PartsIn(l).meta, entries, root, i) && i < |entries|
    && ReadyAt(m, HeadOf(l), s, env, track, held)
    && (held ==> RootHeld(l.c.b, root, track))
  }

  /** What is iterated over stays alive during the loop. */
  predicate RootHeld(c: Builder, root: Option<nat>, track: Tracked) {
    root.Some? ==> Counted(c, root.value) && Tracks(From(track, c), root.value)
  }

  lemma LoopAtParts(m: Machine, l: Loop, s: State, entries: seq<Entry>, root: Option<nat>, i: nat, env: Env,
                    track: Tracked, held: bool)
    requires LoopAt(m, l, s, entries, root, i, env, track, held)
    ensures LoopRegs(s, PartsIn(l).meta, entries, root, i) && i < |entries|
    ensures ReadyAt(m, HeadOf(l), s, env, track, held) && (held ==> RootHeld(l.c.b, root, track))
  {
    hide LoopRegs, ReadyAt, RootHeld;
  }

  lemma IsLoopAt(m: Machine, l: Loop, s: State, entries: seq<Entry>, root: Option<nat>, i: nat, env: Env,
                 track: Tracked, held: bool)
    requires LoopRegs(s, PartsIn(l).meta, entries, root, i) && i < |entries|
    requires ReadyAt(m, HeadOf(l), s, env, track, held) && (held ==> RootHeld(l.c.b, root, track))
    ensures LoopAt(m, l, s, entries, root, i, env, track, held)
  {
    hide LoopRegs, ReadyAt, RootHeld;
  }

  /** Reserving the loop's registers changes nothing else. */
  lemma HeadReady(m: Machine, l: Loop, s: State, env: Env, track: Tracked, held: bool)
    requires l.c.b.next <= l.p.next && Ready(m, HeadOf(l), s, env, From(track, HeadOf(l)), held)
    ensures Ready(m, l.p, s, env, From(track, l.c.b), held) && From(track, HeadOf(l)) == From(track, l.c.b)
  {
  }

  lemma LoopText(w: World, d: nat, l: Loop, entries: seq<Entry>, i: nat, env: Env)
    requires i < |entries|
    ensures RenderLoop(w, d, l.k, l.v, entries[i..], l.a, env)
            == Then(Render(w, d, l.a, Bind(env, l.k, l.v, entries[i])),
                    RenderLoop(w, d, l.k, l.v, entries[i + 1..], l.a, env))
    ensures i + 1 == |entries| ==> RenderLoop(w, d, l.k, l.v, entries[i + 1..], l.a, env) == NOTHING
  {
    hide Render, Bind;
    assert entries[i..][1..] == entries[i + 1..];
  }

  lemma ThenNothing(o: Outcome)
    requires o.ok
    ensures Then(o, NOTHING) == o
  {
  }

  /** In the body, its variables are in use too. */
  function BodyTrack(l: Loop, track: Tracked): (t: Tracked)
    ensures t.exact == track.exact && track.ids <= t.ids
    ensures var vars := VarsIn(l);
            (vars.key.Some? ==> vars.key.value in t.ids) && (vars.val.Some? ==> vars.val.value in t.ids)
  {
    track.(ids := track.ids + IdOf(VarsIn(l).key) + IdOf(VarsIn(l).val))
  }

  /** One iteration of the loop, up to where control goes next. */
  lemma IterationRuns(m: Machine, w: World, d: nat, l: Loop, s: State, entries: seq<Entry>, root: Option<nat>, i: nat,
                      env: Env, keys: set<string>, track: Tracked, held: bool)
    returns (s': State)
    requires w.host == m.h && Staged(l) && WellFormed(l.b)
    requires BalancedStmt(l.b, For(l.k, l.v, l.it, l.a, l.els), keys, track.exact)
    requires RunnableStmt(m.h, l.a) && PartsIn(l).after < |l.b6.blocks| && Within(EndOf(l), m)
    requires LoopAt(m, l, s, entries, root, i, env, track, held) && (held ==> RootedStmt(l.a))
    ensures var o := Render(w, d, l.a, Bind(env, l.k, l.v, entries[i]));
            && s'.out == s.out + o.text && (held ==> s'.dangling == s.dangling)
            && (!o.ok ==> Reaches(m, End(HeadOf(l), s), Done(s')) && (track.exact ==> !s'.recreated))
            && (o.ok ==>
                  && Reaches(m, End(HeadOf(l), s),
                             At(if i + 1 < |entries| then PartsIn(l).loop else PartsIn(l).after, 0, s'))
                  && AgreeBelow(s, s', l.c.b.next) && LoopRegs(s', PartsIn(l).meta, entries, root, i + 1)
                  && Alive(HeadOf(l), s', From(track, HeadOf(l))))
    decreases For(l.k, l.v, l.it, l.a, l.els), 0, 0
  {
    hide *;
    LoopAtParts(m, l, s, entries, root, i, env, track, held);
    var parts, vars, h := PartsIn(l), VarsIn(l), HeadOf(l);
    var env' := Bind(env, l.k, l.v, entries[i]);
    var o := Render(w, d, l.a, env');
    var body := BodyTrack(l, track);
    LoopIsBuilt(l, keys, track.exact);
    StagedParts(l);
    PartsAre(l);
    HeadIs(l);
    LoopWithin(m, l, s);
    ReadyAtParts(m, h, s, env, track, held);
    HeadReady(m, l, s, env, track, held);
    VarsSome(l.p, l.k, l.v, vars);
    // fetch the loop variables
    var s1 := Fetched(s, vars, entries[i], root);
    BodyBlocks(l);
    SameBlocksWithin(l.body, LoopGet(l.p, parts.meta, vars), m);
    FetchRuns(m, l.p, parts.meta, vars, s, entries, root, i);
    SameEnd(l.body, LoopGet(l.p, parts.meta, vars), s1);
    FetchFacts(l.p, vars, s, entries[i], root);
    if held { RootIsHeld(l, s, root, track); }
    BodyReady(m, l.p, parts.meta, l.body, s, env, l.k, l.v, vars, entries[i], root, From(track, l.c.b), held);
    LoopGetParts(l.p, parts.meta, vars);
    BodyReadyAt(m, l, s1, env', track, held);
    // run the body
    var s3 := StmtRuns(m, w, d, l.body, l.a, s1, env', BodyKeys(l.k, l.v, keys), body, held);
    if !o.ok {
      s' := s3;
      FailedRun(m, l.body, s1, l.b3, o, s3, From(body, l.b3), held);
      ReachesTrans(m, End(h, s), End(l.body, s1), Done(s'));
    } else {
      RanOkParts(m, l.body, s1, l.b3, o, s3, From(body, l.b3), held);
      // release the variables
      BodyTracks(l, track);
      var s4 := DropRuns(m, l.b3, vars, s3, From(body, l.b3));
      DropBlocks(l);
      SameEnd(l.b4, DropVariables(l.b3, vars).value, s4);
      AliveIn(DropVariables(l.b3, vars).value, l.b4, s4, From(body, l.b3));
      RegsKept(s, s1, s3, s4, parts.meta, entries, root, i, l.c.b.next, l.p.next, l.body.next);
      // test for another iteration
      NextRuns(m, l.b4, parts, parts.meta, s4, entries, root, i);
      s' := NextState(TouchRoot(s4, root), parts.meta, l.b4.next, i, i + 1 < |entries|);
      if held { RootStaysHeld(l, s4, root, track); }
      HeadAlive(l, s4, track);
      NextFacts(h, parts.meta, s4, l.b4.next, entries, root, i, i + 1 < |entries|, From(track, h));
      ReachesTrans(m, End(h, s), End(l.body, s1), End(l.b3, s3));
      ReachesTrans(m, End(h, s), End(l.b3, s3), End(l.b4, s4));
      ReachesTrans(m, End(h, s), End(l.b4, s4), At(if i + 1 < |entries| then parts.loop else parts.after, 0, s'));
      AgreeTrans(s, s4, s', l.c.b.next, l.c.b.next);
    }
  }

  lemma RootIsHeld(l: Loop, s: State, root: Option<nat>, track: Tracked)
    requires Alive(HeadOf(l), s, From(track, HeadOf(l))) && RootHeld(l.c.b, root, track) && l.p.refs == l.c.b.refs
    ensures root.Some? ==> Counted(l.p, root.value) && Tracks(From(track, l.c.b), root.value)
    ensures TouchRoot(s, root).dangling == s.dangling
  {
  }

  /** Ready for the body, whose variables are tracked as such. */
  lemma BodyReadyAt(m: Machine, l: Loop, s: State, env: Env, track: Tracked, held: bool)
    requires Ready(m, l.body, s, env, From(track, l.c.b), held) && Keeps(HeadOf(l), track) && WellFormed(HeadOf(l))
    requires l.p.refs == l.c.b.refs && l.p.over == l.c.b.over && l.c.b.next <= l.p.next && l.p.next <= l.body.next
    requires l.body.refs == RefsWith(l.p.refs, VarsIn(l)) && l.body.over == LoopOver(l.p.over, l.k, l.v, VarsIn(l))
    ensures ReadyAt(m, l.body, s, env, BodyTrack(l, track), held)
  {
    var t := From(BodyTrack(l, track), l.body);
    forall id: nat | Counted(l.body, id) && Tracks(From(track, l.c.b), id)
      ensures Tracks(t, id)
    {
      if Some(id) != VarsIn(l).key { assert Counted(HeadOf(l), id) && Variant(id).id < l.c.b.next; }
    }
    forall id: nat | Counted(l.body, id) && Tracks(t, id)
      ensures Tracks(From(track, l.c.b), id)
    {
    }
    assert Alive(l.body, s, t);
    assert OverTracked(l.body, t) by { OverInBody(l, track); }
    assert Keeps(l.body, BodyTrack(l, track)) by { KeepsInBody(l, track); }
    if held {
      forall x | x in l.body.over
        ensures Held(l.body, s, l.body.over[x], t)
      {
        assert Held(l.body, s, l.body.over[x], From(track, l.c.b));
      }
    }
  }

  lemma OverInBody(l: Loop, track: Tracked)
    requires WellFormed(HeadOf(l)) && OverTracked(l.body, From(track, l.c.b)) && l.p.over == l.c.b.over
    requires l.p.refs == l.c.b.refs && l.body.over == LoopOver(l.p.over, l.k, l.v, VarsIn(l))
    ensures OverTracked(l.body, From(BodyTrack(l, track), l.body))
  {
    forall x | x in l.body.over
      ensures l.body.over[x].Reg? ==> Tracks(From(BodyTrack(l, track), l.body), l.body.over[x].id)
    {
      if x in l.p.over && l.body.over[x] == l.p.over[x] { assert HeadOf(l).over[x].id < l.c.b.next; }
    }
  }

  lemma KeepsInBody(l: Loop, track: Tracked)
    requires Keeps(HeadOf(l), track) && l.body.refs == RefsWith(l.p.refs, VarsIn(l))
    ensures Keeps(l.body, BodyTrack(l, track))
  {
  }

  lemma BodyTracks(l: Loop, track: Tracked)
    ensures var vars, t := VarsIn(l), From(BodyTrack(l, track), l.b3);
            (vars.key.Some? ==> Tracks(t, vars.key.value)) && (vars.val.Some? ==> Tracks(t, vars.val.value))
  {
  }

  lemma RootStaysHeld(l: Loop, s: State, root: Option<nat>, track: Tracked)
    requires Alive(l.b4, s, From(BodyTrack(l, track), l.b3)) && RootHeld(l.c.b, root, track) && l.p.refs == l.c.b.refs
    requires Owes(l.p, l.b4, multiset{}, track.exact) && WellFormed(l.c.b)
    ensures TouchRoot(s, root).dangling == s.dangling
  {
    if root.Some? {
      assert Variant(root.value).id < l.c.b.next;
      assert Counted(l.p, root.value) && Counted(l.b4, root.value);
    }
  }

  lemma BodyBlocks(l: Loop)
    requires var b2 := LoopGet(l.p, PartsIn(l).meta, VarsIn(l));
             l.body == b2.(over := LoopOver(b2.over, l.k, l.v, VarsIn(l)))
    ensures var b2 := LoopGet(l.p, PartsIn(l).meta, VarsIn(l)); l.body.blocks == b2.blocks && l.body.cur == b2.cur
  {
  }

  lemma FailedRun(m: Machine, b: Builder, s: State, b': Builder, o: Outcome, s': State, track: Tracked, held: bool)
    requires StmtRan(m, b, s, b', o, s', track, held) && !o.ok
    ensures s'.out == s.out + o.text && Reaches(m, End(b, s), Done(s')) && (track.exact ==> !s'.recreated)
    ensures held ==> s'.dangling == s.dangling
  {
    hide Reaches, End;
  }

  lemma AliveIn(b: Builder, b': Builder, s: State, track: Tracked)
    requires Alive(b, s, track) && b'.refs == b.refs && b'.next == b.next
    ensures Alive(b', s, track)
  {
  }

  /** The body leaves the loop's registers alone. */
  lemma RegsKept(s: State, s1: State, s3: State, s4: State, meta: Meta, entries: seq<Entry>, root: Option<nat>, i: nat,
                 n: nat, p: nat, body: nat)
    requires LoopRegs(s, meta, entries, root, i) && meta == Meta(n, n + 1) && n + 3 == p && p <= body
    requires AgreeBelow(s, s1, p) && AgreeBelow(s1, s3, body) && s4.regs == s3.regs && s4.live <= s3.live
    ensures LoopRegs(s4, meta, entries, root, i) && AgreeBelow(s, s4, n)
  {
  }

  /** Between iterations the temporaries of before the loop are alive. */
  lemma HeadAlive(l: Loop, s: State, track: Tracked)
    requires Alive(l.b4, s, From(BodyTrack(l, track), l.b3)) && Owes(l.p, l.b4, multiset{}, track.exact)
    requires WellFormed(HeadOf(l))
    ensures Alive(HeadOf(l), s, From(track, HeadOf(l)))
  {
    var h, body := HeadOf(l), From(BodyTrack(l, track), l.b3);
    forall id: nat | Counted(h, id) && Tracks(From(track, h), id)
      ensures Counted(l.b4, id) && Tracks(body, id)
    {
      assert Counted(l.p, id) && Variant(id).id < h.next;
    }
    if track.exact {
      forall id: nat | Counted(l.b4, id)
        ensures Counted(h, id)
      {
        SameCounted(l.p, l.b4);
      }
    }
    AliveAt(l.b4, h, s, body, From(track, h));
  }

  /** All iterations from the i-th on. */
  lemma {:induction false} LoopRuns(m: Machine, w: World, d: nat, l: Loop, s: State, entries: seq<Entry>,
                                    root: Option<nat>, i: nat, env: Env, keys: set<string>, track: Tracked, held: bool)
    returns (s': State)
    requires w.host == m.h && Staged(l) && WellFormed(l.b)
    requires BalancedStmt(l.b, For(l.k, l.v, l.it, l.a, l.els), keys, track.exact)
    requires RunnableStmt(m.h, l.a) && PartsIn(l).after < |l.b6.blocks| && Within(EndOf(l), m)
    requires LoopAt(m, l, s, entries, root, i, env, track, held) && i < |entries| && (held ==> RootedStmt(l.a))
    ensures StmtRan(m, HeadOf(l), s, EndOf(l), RenderLoop(w, d, l.k, l.v, entries[i..], l.a, env), s',
                    From(track, EndOf(l)), held)
    decreases For(l.k, l.v, l.it, l.a, l.els), 1, |entries| - i
  {
    hide *;
    var h, f := HeadOf(l), EndOf(l);
    var o := Render(w, d, l.a, Bind(env, l.k, l.v, entries[i]));
    var rest := RenderLoop(w, d, l.k, l.v, entries[i + 1..], l.a, env);
    LoopText(w, d, l, entries, i, env);
    LoopIsBuilt(l, keys, track.exact);
    PartsAre(l);
    HeadIs(l);
    SameExact(track, h, f);
    LoopAtParts(m, l, s, entries, root, i, env, track, held);
    var s1 := IterationRuns(m, w, d, l, s, entries, root, i, env, keys, track, held);
    if !o.ok {
      s' := s1;
      ThenFails(o, rest);
      RanFails(m, h, s, f, o, s', From(track, f), held);
    } else {
      LoopWithin(m, l, s1);
      if i + 1 < |entries| {
        OwesNothing(h, track.exact);
        ReadyAfterStmt(m, h, h, s, s1, env, track, held);
        IsLoopAt(m, l, s1, entries, root, i + 1, env, track, held);
        s' := LoopRuns(m, w, d, l, s1, entries, root, i + 1, env, keys, track, held);
        RanOk(m, h, s, h, o, s1, From(track, h), held);
        RanThen(m, h, s, h, s1, f, s', o, rest, From(track, h), From(track, f), held);
      } else {
        s' := s1;
        ThenNothing(o);
        ReadyAtParts(m, h, s, env, track, held);
        EndAlive(l, s1, track);
        RanOk(m, h, s, f, o, s1, From(track, f), held);
      }
    }
  }

  lemma OwesNothing(b: Builder, exact: bool)
    ensures Owes(b, b, multiset{}, exact)
  {
  }

  lemma EndAlive(l: Loop, s: State, track: Tracked)
    requires PartsIn(l).after < |l.b6.blocks| && Alive(HeadOf(l), s, From(track, HeadOf(l))) && l.p.refs == l.c.b.refs
    requires Owes(l.c.b, EndOf(l), multiset{}, track.exact) && WellFormed(EndOf(l)) && WellFormed(l.c.b)
    requires Keeps(HeadOf(l), track)
    ensures Alive(EndOf(l), s, From(track, EndOf(l)))
  {
    hide Alive, Owes, WellFormed, Counted, EndOf;
    AliveIn(HeadOf(l), l.c.b, s, From(track, HeadOf(l)));
    AliveLater(l.c.b, EndOf(l), s, track);
  }

  lemma ForParts(w: World, d: nat, l: Loop, env: Env)
    ensures var x := Eval(w.host, l.it, env);
            Render(w, d, For(l.k, l.v, l.it, l.a, l.els), env)
            == if x.None? then FAILED
               else if EntriesOf(x.value) == [] then RenderOpt(w, d, l.els, env)
               else RenderLoop(w, d, l.k, l.v, EntriesOf(x.value), l.a, env)
    ensures RunnableStmt(w.host, For(l.k, l.v, l.it, l.a, l.els)) ==>
                Runnable(w.host, l.it) && RunnableStmt(w.host, l.a) && RunnableOpt(w.host, l.els)
    ensures RootedStmt(For(l.k, l.v, l.it, l.a, l.els)) ==> Rooted(l.it) && RootedStmt(l.a) && RootedOpt(l.els)
  {
    hide Eval, Runnable, EntriesOf, Rooted;
  }

  lemma HeadIsReady(m: Machine, l: Loop, s: State, env: Env, track: Tracked, held: bool)
    requires ReadyAt(m, l.c.b, s, env, track, held) && l.p.over == l.c.b.over && l.p.refs == l.c.b.refs
    ensures ReadyAt(m, HeadOf(l), s, env, track, held)
  {
  }

  /** Around the body, what is iterated over is in use. */
  function LoopTrack(l: Loop, track: Tracked): (t: Tracked)
    requires l.c.v.Reg?
    ensures t.exact == track.exact && track.ids <= t.ids && l.c.v.id in t.ids
  {
    track.(ids := track.ids + {l.c.v.id})
  }

  /** After the iterable has been computed: it is tracked until the loop ends. */
  lemma IterableReady(m: Machine, l: Loop, s: State, env: Env, track: Tracked, held: bool)
    requires WellFormed(l.b) && WellFormed(l.c.b) && ReadyAt(m, l.c.b, s, env, track, held)
    requires Alive(l.c.b, s, From(track, l.b)) && l.c.v.Reg? && l.c.v.ty.VariantPtr?
    requires Proper(s, l.c.v, From(track, l.b))
    requires Owes(l.b, l.c.b, OwedFor(l.c.v), track.exact)
    ensures ReadyAt(m, l.c.b, s, env, LoopTrack(l, track), held)
  {
    var t := From(LoopTrack(l, track), l.c.b);
    assert l.c.v == Variant(l.c.v.id);
    forall id: nat | Counted(l.c.b, id) && Tracks(t, id)
      ensures Tracks(From(track, l.b), id)
    {
      assert Variant(id).id < l.c.b.next;
    }
    assert Alive(l.c.b, s, t);
    assert Keeps(l.c.b, LoopTrack(l, track)) by { IterableHasReferences(l, track.exact); }
    hide Alive, Keeps, Owes, WellFormed;
    if held {
      forall x | x in l.c.b.over
        ensures Held(l.c.b, s, l.c.b.over[x], t)
      {
        assert Held(l.c.b, s, l.c.b.over[x], From(track, l.c.b));
      }
    }
  }

  lemma IterableHasReferences(l: Loop, exact: bool)
    requires WellFormed(l.b) && l.c.v.Reg? && l.c.v.ty.VariantPtr? && Owes(l.b, l.c.b, OwedFor(l.c.v), exact)
    ensures Variant(l.c.v.id) in l.c.b.refs && l.c.b.refs[Variant(l.c.v.id)] != 0
  {
    assert l.c.v == Variant(l.c.v.id) && l.c.v in OwedFor(l.c.v);
    if l.c.v in l.b.refs { assert l.b.refs[l.c.v] >= -1; }
  }

  /** The storage of the iterable lasts for the loop. */
  lemma IterableHeld(h: Host, l: Loop, s: State, s1: State, env: Env, track: Tracked)
    requires Stored(h, l.b, s, l.it, env, l.c, s1, From(track, l.b)) && Eval(h, l.it, env).Some? && Rooted(l.it)
    requires Alive(l.c.b, s1, From(track, l.b)) && WellFormed(l.b) && CountsKept(l.b, l.c.b) && l.b.next <= l.c.b.next
    requires l.c.v.Reg? && l.c.v.ty.VariantPtr? && Proper(s1, l.c.v, From(track, l.b))
    ensures Held(l.c.b, s1, l.c.v, From(LoopTrack(l, track), l.c.b)) && s1.dangling == s.dangling
  {
    hide Alive, Proper, CountsKept, WellFormed, Eval, Counted, RootOf, Single;
    RootedStays(h, l.it, env);
    if Temporary(l.it) {
      SingleIsRoot(l.c, s1, From(track, l.b));
    } else {
      HeldAt(l.b, s1, l.c.v, track, l.c.b);
      HeldWhenKept(l.b, l.c.b, s1, s1, l.c.v, From(track, l.c.b));
    }
  }

  lemma ForRuns(m: Machine, w: World, d: nat, b: Builder, k: Option<string>, v: Option<string>, it: Expr, a: AST,
                els: Option<AST>, s: State, env: Env, keys: set<string>, track: Tracked, held: bool)
    returns (s': State)
    requires w.host == m.h && WellFormed(b) && LowerStmt(b, For(k, v, it, a, els)).Ok?
    requires Within(LowerStmt(b, For(k, v, it, a, els)).value, m)
    requires BalancedStmt(b, For(k, v, it, a, els), keys, track.exact) && RunnableStmt(m.h, For(k, v, it, a, els))
    requires (held ==> RootedStmt(For(k, v, it, a, els))) && ReadyAt(m, b, s, env, track, held)
    ensures StmtRan(m, b, s, LowerStmt(b, For(k, v, it, a, els)).value, Render(w, d, For(k, v, it, a, els), env), s',
                    From(track, LowerStmt(b, For(k, v, it, a, els)).value), held)
    decreases For(k, v, it, a, els), 2
  {
    hide *;
    var c, p, body, b3, b4, b5, b6 := LoopUnfolds(b, k, v, it, a, els);
    var l := Loop(b, k, v, it, a, els, c, p, body, b3, b4, b5, b6);
    StagedIs(l);
    StagedParts(l);
    LoopIsBuilt(l, keys, track.exact);
    ForParts(w, d, l, env);
    ExprGrownParts(b, c, it, keys, track.exact);
    ExprGrows(b, it);
    var f, b' := EndOf(l), LowerStmt(b, For(k, v, it, a, els)).value;
    var parts, t := PartsIn(l), From(track, b);
    EndOpen(f);
    ReleaseStage(m, f, c.v);
    LoopWithin(m, l, s);
    InitStagesWithin(m, c.b, parts);
    LoopEndGrows(b, k, v, it, a, els, keys, track.exact);
    ReadyAtParts(m, b, s, env, track, held);
    SameExact(track, b, b');
    var s1 := ExprRuns(m, b, it, s, env, t, held);
    RanParts(m, b, s, it, env, c, s1, t, held);
    if Eval(m.h, it, env).None? {
      s' := s1;
      if held { StoredParts(m.h, b, s, it, env, c, s1, t); }
      ExprFailed(m, b, s, c, b', s', t, From(track, b'), held);
    } else {
      var x := Eval(m.h, it, env).value;
      var loop := LoopTrack(l, track);
      ComputedParts(m, b, s, c, s1, x, t);
      ReadyAfterExpr(m, b, c.b, s, s1, env, OwedFor(c.v), track, held);
      IterableReady(m, l, s1, env, track, held);
      if held { IterableHeld(m.h, l, s, s1, env, track); }
      var o := Render(w, d, For(k, v, it, a, els), env);
      IterableTracked(l, track, c.b);
      var s2 := AfterIterable(m, w, d, l, s1, x, env, keys, loop, held);
      RanAfter(m, b, s, c.b, s1, f, s2, o, From(loop, f), held);
      s' := s2;
      if o.ok {
        IterableTracked(l, track, f);
        s' := RanRelease(m, b, s, f, o, s2, c.v, From(loop, f), held);
        LoopReleases(l, f, b', track);
        RanRaise(m, b, s, b', o, s', From(loop, f), From(track, b'), held);
      } else {
        SameExact(loop, f, b');
        FailedAnywhere(m, b, s, f, b', o, s', From(loop, f), From(track, b'), held);
      }
    }
  }

  lemma LoopEndGrows(b: Builder, k: Option<string>, v: Option<string>, it: Expr, a: AST, els: Option<AST>,
                     keys: set<string>, exact: bool)
    requires WellFormed(b) && LowerStmt(b, For(k, v, it, a, els)).Ok?
    requires BalancedStmt(b, For(k, v, it, a, els), keys, exact)
    ensures WellFormed(LowerStmt(b, For(k, v, it, a, els)).value)
  {
    hide *;
    LowerStmtGrown(b, For(k, v, it, a, els), keys, exact);
    StmtGrownParts(b, LowerStmt(b, For(k, v, it, a, els)).value, exact);
  }

  lemma IterableTracked(l: Loop, track: Tracked, f: Builder)
    requires l.c.v.Reg? && l.c.v.ty.VariantPtr?
    ensures Tracks(From(LoopTrack(l, track), f), l.c.v.id)
    ensures forall s :: Proper(s, l.c.v, From(LoopTrack(l, track), f))
  {
  }

  lemma LoopReleases(l: Loop, f: Builder, b': Builder, track: Tracked)
    requires l.c.v.Reg? && GoesOutOfScope(f, l.c.v) == Ok(b')
    ensures var t := From(LoopTrack(l, track), f);
            && From(track, b').exact == t.exact && From(track, b').ids <= t.ids
            && t.from <= From(track, b').from <= b'.next
  {
  }

  lemma EndOpen(b: Builder)
    requires WellFormed(b)
    ensures Open(b)
  {
  }

  lemma InitStagesWithin(m: Machine, c: Builder, parts: LoopParts)
    requires Open(c) && parts == PartsOf(c, parts.iterable) && Within(LoopStart(c, parts), m)
    ensures Within(c, m)
  {
    hide Within, Open, Emit, LoopStart, InitTested, InitAppended;
    InitStages(m, c, parts);
    WithinEmit(Fresh(InitAppended(c, parts), 3), CallLoopInit(parts.meta.table, parts.meta.pos, parts.iterable), m);
    AppendedWithin(m, c, parts);
  }

  lemma AppendedWithin(m: Machine, c: Builder, parts: LoopParts)
    requires Within(Fresh(InitAppended(c, parts), 3), m)
    ensures Within(c, m)
  {
    BlocksLeTrans(c.blocks, InitAppended(c, parts).blocks, m.blocks);
  }

  /** The whole loop once its iterable is computed: its body, or else the else body. */
  lemma AfterIterable(m: Machine, w: World, d: nat, l: Loop, s: State, x: Value, env: Env, keys: set<string>,
                      track: Tracked, held: bool)
    returns (s': State)
    requires w.host == m.h && Staged(l) && WellFormed(l.b)
    requires BalancedStmt(l.b, For(l.k, l.v, l.it, l.a, l.els), keys, track.exact)
    requires RunnableStmt(m.h, l.a) && RunnableOpt(m.h, l.els) && PartsIn(l).after < |l.b6.blocks|
    requires Within(EndOf(l), m) && ReadyAt(m, l.c.b, s, env, track, held)
    requires ValueOf(s, l.c.v) == Some(x) && OperandBelow(l.c.v, l.c.b.next) && Proper(s, l.c.v, From(track, l.c.b))
    requires held ==> Held(l.c.b, s, l.c.v, From(track, l.c.b)) && RootedStmt(l.a) && RootedOpt(l.els)
    ensures StmtRan(m, l.c.b, s, EndOf(l),
                    if EntriesOf(x) == [] then RenderOpt(w, d, l.els, env)
                    else RenderLoop(w, d, l.k, l.v, EntriesOf(x), l.a, env),
                    s', From(track, EndOf(l)), held)
    decreases For(l.k, l.v, l.it, l.a, l.els), 1, |EntriesOf(x)| + 1
  {
    hide *;
    var parts, f, h, t := PartsIn(l), EndOf(l), HeadOf(l), From(track, l.c.b);
    var entries := EntriesOf(x);
    StagedParts(l);
    PartsAre(l);
    HeadIs(l);
    LoopIsBuilt(l, keys, track.exact);
    LoopWithin(m, l, s);
    ReadyAtParts(m, l.c.b, s, env, track, held);
    IsOperand(l.c.b, s, l.c.v, x, t);
    var s1 := InitRuns(m, l.c.b, parts, s, x, t);
    if held { HeldUse(l.c.b, s, s1, l.c.v, t); }
    OwesNothing(l.c.b, track.exact);
    ReadyAfterStmt(m, l.c.b, l.c.b, s, s1, env, track, held);
    LoopWithin(m, l, s1);
    if entries == [] {
      var o := RenderOpt(w, d, l.els, env);
      JumpReady(m, l.c.b, l.b5, s1, env, track, held);
      s' := OptRuns(m, w, d, l.b5, l.els, s1, env, keys, track, held);
      LoopWithin(m, l, s');
      SameNext(l.b6, f, track);
      if o.ok {
        RanOkParts(m, l.b5, s1, l.b6, o, s', From(track, l.b6), held);
        AliveIn(l.b6, f, s', From(track, l.b6));
      }
      RanBranch(m, l.b5, s1, l.b6, s', f, parts.after, o, From(track, l.b6), From(track, f), held);
      RanAfter(m, l.c.b, s, l.b5, s1, f, s', o, From(track, f), held);
    } else {
      var o := RenderLoop(w, d, l.k, l.v, entries, l.a, env);
      HeadIsReady(m, l, s1, env, track, held);
      IsLoopAt(m, l, s1, entries, RootOf(s, l.c.v), 0, env, track, held);
      assert entries[0..] == entries;
      s' := LoopRuns(m, w, d, l, s1, entries, RootOf(s, l.c.v), 0, env, keys, track, held);
      RanAfter(m, l.c.b, s, h, s1, f, s', o, From(track, f), held);
    }
  }

  lemma SameNext(b: Builder, f: Builder, track: Tracked)
    requires b.next == f.next
    ensures From(track, b) == From(track, f)
  {
  }

  /** Using a value whose storage has references. */
  lemma HeldUse(b: Builder, s: State, s': State, v: Operand, track: Tracked)
    requires Alive(b, s, track) && Held(b, s, v, track) && Uses2(s, s', v, v)
    ensures s'.dangling == s.dangling
    ensures forall t: Tracked :: From(t, b) == track ==> RootHeld(b, RootOf(s, v), t)
  {
  }
}
