/** The storage of temporaries over whole runs, told from the instructions alone: which
    registers a library call follows to a value, which temporaries it creates and which it
    destroys.  The marks that machine states carry are proved to report exactly that, and
    runs of compiled templates are proved to destroy what they create. */
module LoweringHistory {
  import opened Results
  import opened Ast
  import opened Semantics
  import opened Ir
  import opened Lowering
  import opened LoweringFrames
  import opened LoweringStorage
  import opened LoweringStatements
  import opened LoweringTheorems

  // ---------- One instruction ----------

  /** The registers through which a library call gets at a value. */
  function Pointers(i: Instr): set<nat> {
    match i
    case CallPrint(v) => IdsOf(v)
    case CallAttribute(_, base, _) => IdsOf(base)
    case CallCompare(_, _, _, l, r) => IdsOf(l) + IdsOf(r)
    case CallBinary(_, _, _, l, r) => IdsOf(l) + IdsOf(r)
    case CallUnary(_, _, _, v) => IdsOf(v)
    case CallMethod(_, _, args) => IdsOfAll(args)
    case CallLoopInit(_, _, v) => IdsOf(v)
    case CallLoopGet(table, _, _, _) => {table}
    case CallLoopNext(_, table, _) => {table}
    case CallDestruct(v) => IdsOf(v)
    case _ => {}
  }

  function Created(m: Machine, i: Instr, s: State): set<nat> {
    match i
    case CallBinary(_, dst, op, l, r) =>
      var a, b := ValueOf(s, l), ValueOf(s, r);
      if a.Some? && b.Some? && m.h.binary(op, a.value, b.value).Some? then {dst} else {}
    case CallUnary(_, dst, op, v) =>
      var a := ValueOf(s, v);
      if a.Some? && m.h.unary(op, a.value).Some? then {dst} else {}
    case CallMethod(dst, name, args) =>
      var vs := ValuesOf(s, args);
      if vs.Some? && m.h.call(name, vs.value).Some? then {dst} else {}
    case CallLoopGet(_, _, key, _) => IdOf(key)
    case _ => {}
  }

  function Destroyed(i: Instr): set<nat> {
    if i.CallDestruct? then IdsOf(i.v) else {}
  }

  /** The storage behind every register that is followed exists; and what is destroyed is a
      temporary that exists, in its own storage. */
  predicate InStorage(i: Instr, s: State) {
    && (forall id :: id in Pointers(i) && id in s.regs && s.regs[id].root.Some? ==> s.regs[id].root.value in s.live)
    && (forall id :: id in Destroyed(i) ==> id in s.live && id in s.regs && s.regs[id].root == Some(id))
  }

  lemma {:induction false} ArgumentsUsable(s: State, vs: seq<Operand>)
    ensures AllUsable(s, vs)
       <==> forall id :: id in IdsOfAll(vs) && id in s.regs && s.regs[id].root.Some? ==> s.regs[id].root.value in s.live
    decreases vs
  {
    if vs != [] {
      ArgumentsUsable(s, vs[1..]);
      assert vs == [vs[0]] + vs[1..];
      assert AllUsable(s, vs) <==> Usable(s, vs[0]) && AllUsable(s, vs[1..]);
    }
  }

  /** The marks of the next state, and which temporaries it has, are what the instruction
      says. */
  ghost predicate MarksExact(m: Machine, i: Instr, s: State) {
    Exec(m, i, s).Some? ==>
      var s' := Exec(m, i, s).value;
      && (s'.dangling <==> s.dangling || !InStorage(i, s))
      && (s'.recreated <==> s.recreated || Created(m, i, s) * s.live != {})
      && s'.live == s.live - Destroyed(i) + Created(m, i, s)
  }

  lemma MarksOfComparisons(m: Machine, i: Instr, s: State)
    requires i.CallCompare?
    ensures MarksExact(m, i, s)
  {
    OneMore(i.dst, s.live);
  }

  lemma OneMore(id: nat, live: set<nat>)
    ensures {id} * live == {} <==> id !in live
    ensures live - {} + {id} == live + {id} && live - {} + {} == live
  {
    assert id in live ==> id in {id} * live;
  }

  lemma MarksOfBinary(m: Machine, i: Instr, s: State)
    requires i.CallBinary?
    ensures MarksExact(m, i, s)
  {
    OneMore(i.dst, s.live);
  }

  lemma MarksOfUnary(m: Machine, i: Instr, s: State)
    requires i.CallUnary?
    ensures MarksExact(m, i, s)
  {
    OneMore(i.dst, s.live);
  }

  lemma MarksOfCalls(m: Machine, i: Instr, s: State)
    requires i.CallMethod?
    ensures MarksExact(m, i, s)
  {
    ArgumentsUsable(s, i.args);
    OneMore(i.dst, s.live);
    hide IdsOfAll, AllUsable, ValuesOf;
  }

  lemma MarksOfFetches(m: Machine, i: Instr, s: State)
    requires i.CallLoopGet?
    ensures MarksExact(m, i, s)
  {
    OneMore(if i.key.Some? then i.key.value else 0, s.live);
  }

  lemma MarksOfLoops(m: Machine, i: Instr, s: State)
    requires i.CallLoopInit? || i.CallLoopNext?
    ensures MarksExact(m, i, s)
  {
    hide EntriesOf;
    OneMore(0, s.live);
  }

  lemma MarksAreExact(m: Machine, i: Instr, s: State)
    ensures MarksExact(m, i, s)
  {
    if i.CallCompare? {
      MarksOfComparisons(m, i, s);
    } else if i.CallBinary? {
      MarksOfBinary(m, i, s);
    } else if i.CallUnary? {
      MarksOfUnary(m, i, s);
    } else if i.CallMethod? {
      MarksOfCalls(m, i, s);
    } else if i.CallLoopGet? {
      MarksOfFetches(m, i, s);
    } else if i.CallLoopInit? || i.CallLoopNext? {
      MarksOfLoops(m, i, s);
    } else {
      hide GetAttribute, HasAttribute, Show;
      OneMore(0, s.live);
    }
  }

  // ---------- Runs ----------

  function InstrAt(m: Machine, c: Config): Option<Instr> {
    if c.At? && c.block < |m.blocks| && c.pc < |m.blocks[c.block].instrs| then Some(m.blocks[c.block].instrs[c.pc])
    else None
  }

  /** How often the next n steps create the temporary. */
  function Creations(m: Machine, c: Config, n: nat, id: nat): nat
    decreases n
  {
    if n == 0 then 0
    else
      var i := InstrAt(m, c);
      (if i.Some? && id in Created(m, i.value, c.s) then 1 else 0) + Creations(m, Step(m, c), n - 1, id)
  }

  /** How often they destroy it. */
  function Destructions(m: Machine, c: Config, n: nat, id: nat): nat
    decreases n
  {
    if n == 0 then 0
    else
      var i := InstrAt(m, c);
      (if i.Some? && id in Destroyed(i.value) then 1 else 0) + Destructions(m, Step(m, c), n - 1, id)
  }

  /** No step follows a register into storage that has ended, or destroys what is not there. */
  predicate StaysInStorage(m: Machine, c: Config, n: nat)
    decreases n
  {
    n == 0 ||
    var i := InstrAt(m, c);
    (i.Some? ==> InStorage(i.value, c.s)) && StaysInStorage(m, Step(m, c), n - 1)
  }

  /** No step creates a temporary that exists. */
  predicate CreatesOnce(m: Machine, c: Config, n: nat)
    decreases n
  {
    n == 0 ||
    var i := InstrAt(m, c);
    (i.Some? ==> Created(m, i.value, c.s) * c.s.live == {}) && CreatesOnce(m, Step(m, c), n - 1)
  }

  function Existing(s: State, id: nat): nat {
    if id in s.live then 1 else 0
  }

  /** A step that is no instruction changes no storage. */
  lemma StepKeepsState(m: Machine, c: Config)
    requires c != Undefined && InstrAt(m, c).None? && Step(m, c) != Undefined
    ensures Step(m, c).s == c.s
  {
  }

  lemma StepExecutes(m: Machine, c: Config)
    requires c != Undefined && InstrAt(m, c).Some? && Step(m, c) != Undefined
    ensures Exec(m, InstrAt(m, c).value, c.s) == Some(Step(m, c).s)
  {
  }

  /** For every run: the marks at its end say exactly whether all its steps were in order. */
  lemma {:induction false} MarksTellTheRun(m: Machine, c: Config, n: nat)
    requires c != Undefined && Steps(m, c, n) != Undefined
    ensures var s := Steps(m, c, n).s;
            && (s.dangling <==> c.s.dangling || !StaysInStorage(m, c, n))
            && (s.recreated <==> c.s.recreated || !CreatesOnce(m, c, n))
    decreases n
  {
    hide Exec, InStorage, Created, Step;
    if n > 0 {
      var c' := Step(m, c);
      StepDefined(m, c, n);
      MarksTellTheRun(m, c', n - 1);
      if InstrAt(m, c).Some? {
        StepExecutes(m, c);
        MarksAreExact(m, InstrAt(m, c).value, c.s);
      } else {
        StepKeepsState(m, c);
      }
    }
  }

  /** An undefined configuration stays undefined. */
  lemma StepDefined(m: Machine, c: Config, n: nat)
    requires n > 0 && Steps(m, c, n) != Undefined
    ensures Step(m, c) != Undefined
  {
    if Step(m, c) == Undefined {
      Stays(m, Undefined, n - 1);
      assert false;
    }
  }

  /** For every run that is in order, and every temporary: it has been created as often as it
      has been destroyed, and once more while it exists. */
  lemma {:induction false} RunsConserve(m: Machine, c: Config, n: nat, id: nat)
    requires c != Undefined && Steps(m, c, n) != Undefined
    requires StaysInStorage(m, c, n) && CreatesOnce(m, c, n)
    ensures Existing(c.s, id) + Creations(m, c, n, id)
         == Existing(Steps(m, c, n).s, id) + Destructions(m, c, n, id)
    decreases n
  {
    hide Exec, Created, Step;
    if n > 0 {
      var c' := Step(m, c);
      StepDefined(m, c, n);
      RunsConserve(m, c', n - 1, id);
      if InstrAt(m, c).Some? {
        StepExecutes(m, c);
        MarksAreExact(m, InstrAt(m, c).value, c.s);
        NotBoth(m, InstrAt(m, c).value, c.s);
      } else {
        StepKeepsState(m, c);
      }
    }
  }

  lemma NotBoth(m: Machine, i: Instr, s: State)
    ensures Destroyed(i) == {} || Created(m, i, s) == {}
  {
  }

  // ---------- Compiled templates ----------

  /** The compiled function of a template that releases its references and takes attributes of
      variables only: on its whole run no library call gets at a value after its end, and when
      nothing fails every temporary is destroyed as often as it is created. */
  lemma TemplateConserves(m: Machine, w: World, d: nat, t: AST) returns (n: nat, s: State)
    requires w.host == m.h && RunnableStmt(m.h, t)
    requires LowerTemplate(t).Ok? && m.blocks == LowerTemplate(t).value.blocks
    ensures var c := At(0, 0, INITIAL);
            && Steps(m, c, n) == Done(s) && s.out == Render(w, d, t, DataEnv(m.data)).text
            && (RootedStmt(t) ==> StaysInStorage(m, c, n))
            && (ReleasableStmt(t, {}) ==> CreatesOnce(m, c, n))
            && (RootedStmt(t) && ReleasableStmt(t, {}) && Render(w, d, t, DataEnv(m.data)).ok ==>
                  forall id :: Creations(m, c, n, id) == Destructions(m, c, n, id))
  {
    hide RunnableStmt, LowerTemplate, Render, DataEnv, RootedStmt, ReleasableStmt, StaysInStorage, CreatesOnce,
         Creations, Destructions;
    var c := At(0, 0, INITIAL);
    s := TemplateRuns(m, w, d, t);
    n :| Steps(m, c, n) == Done(s);
    MarksTellTheRun(m, c, n);
    if RootedStmt(t) && ReleasableStmt(t, {}) && Render(w, d, t, DataEnv(m.data)).ok {
      forall id
        ensures Creations(m, c, n, id) == Destructions(m, c, n, id)
      {
        RunsConserve(m, c, n, id);
      }
    }
  }
}
