/** What the compiled function does, from its entry to its return. */
module LoweringTheorems {
  import opened Results
  import opened Ast
  import opened Semantics
  import opened Ir
  import opened Lowering
  import opened LoweringFrames
  import opened LoweringRuns
  import opened LoweringStorage
  import opened LoweringStatements

  /** The state in which the template function is entered. */
  const INITIAL := State(map[], "", {}, false, false)

  /** The data passed to the template, as an environment: an absent variable is null. */
  function DataEnv(data: string -> Value): Env {
    (x: string) => Some(data(x))
  }

  lemma EntryReady(m: Machine, track: Tracked, held: bool)
    requires track.ids == {}
    ensures WellFormed(ENTRY) && ReadyAt(m, ENTRY, INITIAL, DataEnv(m.data), track, held)
    ensures End(ENTRY, INITIAL) == At(0, 0, INITIAL)
    ensures KeysMatch(ENTRY, {}) && ENTRY.refs == map[]
  {
  }

  lemma TemplateUnfolds(t: AST)
    requires LowerTemplate(t).Ok?
    ensures LowerStmt(ENTRY, t).Ok?
    ensures LowerTemplate(t).value == Terminate(LowerStmt(ENTRY, t).value, RetVoid)
  {
    hide LowerStmt, Terminate;
  }

  // ---------- The compiled function ----------

  /** The compiled function returns with exactly the text the template renders, the whole of
      it or, when an operation fails, the part before the failure.  No temporary is used after
      its end if attributes are rooted; none is created twice, and none is left when nothing
      failed, if all are released. */
  lemma TemplateRuns(m: Machine, w: World, d: nat, t: AST) returns (s: State)
    requires w.host == m.h && RunnableStmt(m.h, t)
    requires LowerTemplate(t).Ok? && m.blocks == LowerTemplate(t).value.blocks
    ensures Reaches(m, At(0, 0, INITIAL), Done(s))
    ensures s.out == Render(w, d, t, DataEnv(m.data)).text
    ensures RootedStmt(t) ==> !s.dangling
    ensures ReleasableStmt(t, {}) ==> !s.recreated && (Render(w, d, t, DataEnv(m.data)).ok ==> s.live == {})
  {
    hide *;
    var exact, held := ReleasableStmt(t, {}), RootedStmt(t);
    var track := Tracked(exact, {}, 0);
    var b0, env := ENTRY, DataEnv(m.data);
    var o := Render(w, d, t, env);
    TemplateUnfolds(t);
    EntryReady(m, track, held);
    var b := LowerStmt(b0, t).value;
    IsBalanced(b0, t, {}, exact);
    LowerStmtGrown(b0, t, {}, exact);
    StmtGrownParts(b0, b, exact);
    GrowsOpen(b0, b);
    TheFunctionItself(m, Terminate(b, RetVoid));
    WithinTerminate(b, RetVoid, m);
    s := StmtRuns(m, w, d, b0, t, INITIAL, env, {}, track, held);
    NothingPrinted(o.text);
    SameExact(track, b, b);
    if o.ok {
      RanOkParts(m, b0, INITIAL, b, o, s, From(track, b), held);
      Returns(m, b, s);
      if exact { NothingLeft(b0, b, s, From(track, b)); }
    } else {
      FailedRun(m, b0, INITIAL, b, o, s, From(track, b), held);
    }
  }

  /** The function returns at the end of the template. */
  lemma Returns(m: Machine, b: Builder, s: State)
    requires Open(b) && Within(Terminate(b, RetVoid), m) && Reaches(m, End(ENTRY, INITIAL), End(b, s))
    ensures Reaches(m, At(0, 0, INITIAL), Done(s))
  {
    assert End(ENTRY, INITIAL) == At(0, 0, INITIAL);
    hide *;
    TerminateRuns(m, b, RetVoid, s);
    ReachesTrans(m, At(0, 0, INITIAL), End(b, s), Done(s));
  }

  lemma NothingPrinted(text: string)
    ensures INITIAL.out + text == text && !INITIAL.dangling
  {
  }

  lemma TheFunctionItself(m: Machine, b: Builder)
    requires m.blocks == b.blocks
    ensures Within(b, m)
  {
  }

  lemma NothingCounted(b0: Builder, b: Builder, id: nat)
    requires Owes(b0, b, multiset{}, true) && b0.refs == map[]
    ensures !Counted(b, id)
  {
  }

  lemma NothingLeft(b0: Builder, b: Builder, s: State, track: Tracked)
    requires Alive(b, s, track) && track.exact && Owes(b0, b, multiset{}, true) && b0.refs == map[]
    ensures s.live == {} && !s.recreated
  {
    forall id: nat
      ensures id !in s.live
    {
      NothingCounted(b0, b, id);
    }
  }

  /** No run uses a register that was never set, divides by zero or leaves the function: every
      configuration that can be reached goes on until the function returns. */
  lemma NeverUndefined(m: Machine, t: AST, c: Config)
    requires RunnableStmt(m.h, t) && LowerTemplate(t).Ok? && m.blocks == LowerTemplate(t).value.blocks
    requires Reaches(m, At(0, 0, INITIAL), c)
    ensures c != Undefined
  {
    hide *;
    var s := TemplateRuns(m, World(m.h, map[], ""), 0, t);
    if c == Undefined {
      ReachesOneEnd(m, At(0, 0, INITIAL), s, c);
    }
  }

  /** ... and it returns in one way only, so its text is the rendered text. */
  lemma OnlyEnd(m: Machine, w: World, d: nat, t: AST, s: State)
    requires w.host == m.h && RunnableStmt(m.h, t) && LowerTemplate(t).Ok?
    requires m.blocks == LowerTemplate(t).value.blocks
    requires Reaches(m, At(0, 0, INITIAL), Done(s))
    ensures s.out == Render(w, d, t, DataEnv(m.data)).text
    ensures RootedStmt(t) ==> !s.dangling
    ensures ReleasableStmt(t, {}) ==> !s.recreated && (Render(w, d, t, DataEnv(m.data)).ok ==> s.live == {})
  {
    hide *;
    var s' := TemplateRuns(m, w, d, t);
    ReachesOneEnd(m, At(0, 0, INITIAL), s', Done(s));
  }
}
