/** Templates whose compiled function goes wrong, each for one of the conditions that the
    theorems ask for. */
module LoweringExamples {
  import opened Results
  import opened Doubles
  import opened Ast
  import opened Semantics
  import opened Folding
  import opened ExpressionPasses
  import opened Passes
  import opened Includes
  import opened Ir
  import opened Lowering
  import opened LoweringFrames
  import opened LoweringStorage
  import opened LoweringCorrect
  import opened LoweringTheorems
  import opened LoweringAccepts
  import opened LoweringBalance

  // ---------- An attribute of a temporary ----------

  /** `a + b`, whose value is a temporary. */
  const SUM: Expr := Bin(Addition, Var("a"), Var("b"))

  /** What the template `{{ c }}` becomes where it is included `using a + b`. */
  const ATTRIBUTE: Expr := Attr(SUM, "c")

  lemma IncludedAttribute(h: Host)
    ensures var w := OneFile(h, Print(Var("c")));
            Walk(Resolver(w, 1), Include("f", Some(SUM), [])) == Ok(Print(ATTRIBUTE))
  {
    var w := OneFile(h, Print(Var("c")));
    assert ResolvePath(w.basePath, "f") == "base/f";
    assert Walk(Resolver(w, 0), Print(Var("c"))) == Ok(Print(Var("c")));
    assert Visit(PrependScope(SUM), Var("c")) == Ok(ATTRIBUTE);
  }

  lemma ExampleCompiles(e: Expr)
    requires e == ATTRIBUTE || e == ARGUMENT
    ensures LowerTemplate(Print(e)).Ok?
  {
    assert Accepted(SUM);
    assert [SUM][1..] == [] && AcceptedAll([]) && AcceptedAll([SUM]);
    TemplateAccepted(Print(e));
  }

  function FunctionOf(e: Expr): seq<Block>
    requires e == ATTRIBUTE || e == ARGUMENT
  {
    ExampleCompiles(e);
    LowerTemplate(Print(e)).value.blocks
  }

  /** `{{ c }}` included `using a + b`: the attribute is used after the sum, in whose storage it
      lives, has been destroyed; unless there is no such attribute. */
  lemma AttributeDangles(m: Machine, x: Value) returns (s: State)
    requires m.h.binary(Addition, m.data("a"), m.data("b")) == Some(x) && m.blocks == FunctionOf(ATTRIBUTE)
    ensures var w := OneFile(m.h, Print(Var("c")));
            Walk(Resolver(w, 1), Include("f", Some(SUM), [])) == Ok(Print(ATTRIBUTE))
    ensures Reaches(m, At(0, 0, INITIAL), Done(s)) && (s.dangling <==> HasAttribute(x, "c"))
  {
    hide *;
    IncludedAttribute(m.h);
    FunctionIs(ATTRIBUTE);
    SumEvaluates(m, x);
    AttributeTaken(m.h, DataEnv(m.data), x);
    s := PrintedExactly(m, ATTRIBUTE);
  }

  lemma FunctionIs(e: Expr)
    requires e == ATTRIBUTE || e == ARGUMENT
    ensures LowerTemplate(Print(e)).Ok? && FunctionOf(e) == LowerTemplate(Print(e)).value.blocks
  {
    ExampleCompiles(e);
    hide LowerTemplate;
  }

  lemma SumEvaluates(m: Machine, x: Value)
    requires m.h.binary(Addition, m.data("a"), m.data("b")) == Some(x)
    ensures Eval(m.h, SUM, DataEnv(m.data)) == Some(x) && Runnable(m.h, SUM)
  {
  }

  lemma AttributeTaken(h: Host, env: Env, x: Value)
    requires Eval(h, SUM, env) == Some(x) && Runnable(h, SUM)
    ensures Eval(h, ATTRIBUTE, env).Some? && Runnable(h, ATTRIBUTE)
    ensures TakesFromTemporary(h, ATTRIBUTE, env) <==> HasAttribute(x, "c")
  {
    hide HasAttribute, GetAttribute;
    assert !TakesFromTemporary(h, SUM, env);
  }

  // ---------- A temporary as an argument ----------

  /** `f(a + b)`. */
  const ARGUMENT: Expr := Call("f", [SUM])

  /** `{{ f(a + b) }}`: the function returns and the sum is still alive; nothing was used after
      its end. */
  lemma ArgumentIsLeaked(m: Machine, x: Value) returns (s: State)
    requires m.h.binary(Addition, m.data("a"), m.data("b")) == Some(x) && m.h.call("f", [x]).Some?
    requires m.blocks == FunctionOf(ARGUMENT)
    ensures Reaches(m, At(0, 0, INITIAL), Done(s)) && s.live != {} && !s.dangling
  {
    hide *;
    FunctionIs(ARGUMENT);
    SumEvaluates(m, x);
    ArgumentPassed(m.h, DataEnv(m.data), x);
    s := PrintedExactly(m, ARGUMENT);
  }

  lemma ArgumentPassed(h: Host, env: Env, x: Value)
    requires Eval(h, SUM, env) == Some(x) && Runnable(h, SUM) && h.call("f", [x]).Some?
    ensures Eval(h, ARGUMENT, env).Some? && Runnable(h, ARGUMENT)
    ensures !TakesFromTemporary(h, ARGUMENT, env) && !Releasable(ARGUMENT, {})
  {
    assert [SUM][1..] == [] && EvalAll(h, [], env) == Some([]) && [x] + [] == [x];
    assert EvalAll(h, [SUM], env) == Some([x]);
    assert RunnableAll(h, [SUM]) by { assert RunnableAll(h, []); }
    assert !TakesFromTemporary(h, SUM, env) && !AnyTakesFromTemporary(h, [], env);
    assert CountedExpr(SUM, {});
  }

  // ---------- Comparisons ----------

  lemma ReachesNext(m: Machine, a: Config, b: Config, c: Config)
    requires (a == b || Reaches(m, a, b)) && Step(m, b) == c
    ensures Reaches(m, a, c)
  {
    ReachesSelf(m, a);
    ReachesStep(m, b);
    ReachesTrans(m, a, b, c);
  }

  /** The function compiled for `{% if c %}x{% endif %}`, where two instructions compute c in
      register 1. */
  function TestingBlocks(i: Instr, j: Instr): seq<Block> {
    [Block([i, j], Some(CondBr(Reg(1, I1), 1, 2))),
     Block([CallPrint(ConstString("x"))], Some(Br(3))),
     Block([], Some(Br(3))),
     Block([], Some(RetVoid))]
  }

  lemma TestingCompiles(c: Expr, i: Instr, j: Instr)
    requires LowerExpr(ENTRY, c)
          == Ok(Computed(Reg(1, I1), ENTRY.(blocks := [Block([i, j], None)], next := 2)))
    ensures var r := LowerTemplate(If(c, Raw("x"), None)); r.Ok? && r.value.blocks == TestingBlocks(i, j)
  {
    var e := ENTRY;
    var b := e.(blocks := [Block([i, j], None)], next := 2);
    hide LowerExpr;
    var p := IfStart(b, Reg(1, I1));
    assert p.blocks
      == [Block([i, j], Some(CondBr(Reg(1, I1), 1, 2))), Block([], None), Block([], None), Block([], None)];
    var b1 := Emit(p, CallPrint(ConstString("x")));
    assert LowerStmt(p, Raw("x")) == Ok(b1);
    assert b1.blocks[1].instrs == [CallPrint(ConstString("x"))] by {
      assert [] + [CallPrint(ConstString("x"))] == [CallPrint(ConstString("x"))];
    }
    var b2 := IfElse(b1, 1);
    assert LowerOpt(b2, None) == Ok(b2);
    var f := IfEnd(b2, 1);
    assert LowerStmt(e, If(c, Raw("x"), None)) == Ok(f);
    assert LowerTemplate(If(c, Raw("x"), None)) == Ok(Terminate(f, RetVoid));
    assert Terminate(f, RetVoid).blocks == TestingBlocks(i, j);
  }

  /** If the second instruction computes false, nothing is printed. */
  lemma TestingRuns(m: Machine, i: Instr, j: Instr, s1: State, s2: State)
    requires m.blocks == TestingBlocks(i, j)
    requires Exec(m, i, INITIAL) == Some(s1) && Exec(m, j, s1) == Some(s2) && s2.out == ""
    requires ValueOf(s2, Reg(1, I1)) == Some(Bool(false))
    ensures Reaches(m, At(0, 0, INITIAL), Done(s2))
  {
    var c0, c1, c2, c3, c4 := At(0, 0, INITIAL), At(0, 1, s1), At(0, 2, s2), At(2, 0, s2), At(3, 0, s2);
    hide Exec, ValueOf;
    assert Step(m, c0) == c1;
    assert Step(m, c1) == c2;
    assert Step(m, c2) == c3;
    assert Step(m, c3) == c4;
    assert Step(m, c4) == Done(s2);
    hide Step, Reaches;
    ReachesNext(m, c0, c0, c1);
    ReachesNext(m, c0, c1, c2);
    ReachesNext(m, c0, c2, c3);
    ReachesNext(m, c0, c3, c4);
    ReachesNext(m, c0, c4, Done(s2));
  }

  /** `1.5 % 0.0 != 1.0`, whose left operand is not a number. */
  const NAN_TEST: Expr :=
    Cmp(NotEqual, Bin(Modulus, DoubleLit(Finite(1.5)), DoubleLit(Finite(0.0))), DoubleLit(Finite(1.0)))

  const REMAINDER: Instr := FloatOp(0, Modulus, ConstDouble(Finite(1.5)), ConstDouble(Finite(0.0)))
  const UNEQUAL: Instr := FCmp(1, NotEqual, Reg(0, DoubleTy), ConstDouble(Finite(1.0)))

  /** The entry block after one instruction and after two. */
  lemma OneInstruction(i: Instr, j: Instr)
    ensures var e := ENTRY;
            var b1 := e.(blocks := [Block([i], None)], next := 1);
            && Emit(Fresh(e, 1), i) == b1
            && Emit(Fresh(b1, 1), j) == e.(blocks := [Block([i, j], None)], next := 2)
  {
    var e := ENTRY;
    assert [] + [i] == [i] && [i] + [j] == [i, j];
    assert Emit(Fresh(e, 1), i).blocks == [Block([i], None)];
    var b1 := e.(blocks := [Block([i], None)], next := 1);
    assert Emit(Fresh(b1, 1), j).blocks == [Block([i, j], None)];
  }

  lemma NanTestLowers()
    ensures LowerExpr(ENTRY, NAN_TEST)
         == Ok(Computed(Reg(1, I1), ENTRY.(blocks := [Block([REMAINDER, UNEQUAL], None)], next := 2)))
  {
    var e := ENTRY;
    var c := Computed(Reg(0, DoubleTy), e.(blocks := [Block([REMAINDER], None)], next := 1));
    var x, y := ConstDouble(Finite(1.5)), ConstDouble(Finite(0.0));
    assert LowerExpr(e, DoubleLit(Finite(1.5))) == Ok(Computed(x, e));
    assert LowerExpr(e, DoubleLit(Finite(0.0))) == Ok(Computed(y, e));
    OneInstruction(REMAINDER, UNEQUAL);
    assert NativeBinaryOp(e, Modulus, x, y) == Ok(c);
    assert LowerExpr(e, NAN_TEST.left) == Ok(c);
    hide LowerExpr;
    ComparedWithOne(e, NAN_TEST, c);
    assert CmpResult(c.b, NotEqual, c.v, ConstDouble(Finite(1.0)))
      == NativeComparison(c.b, NotEqual, c.v, ConstDouble(Finite(1.0)));
  }

  /** A comparison of a computed operand with the literal 1.0. */
  lemma ComparedWithOne(e: Builder, t: Expr, c: Computed)
    requires t.Cmp? && LowerExpr(e, t.left) == Ok(c) && t.right == DoubleLit(Finite(1.0))
    ensures LowerExpr(e, t) == CmpResult(c.b, t.cop, c.v, ConstDouble(Finite(1.0)))
  {
    hide VariantComparison, NativeComparison;
    assert LowerExpr(c.b, t.right) == Ok(Computed(ConstDouble(Finite(1.0)), c.b));
  }

  lemma NanTestExecutes(m: Machine) returns (s1: State, s2: State)
    requires m.h.fpu.arith(Modulus, Finite(1.5), Finite(0.0)) == NaN
    ensures Exec(m, REMAINDER, INITIAL) == Some(s1) && Exec(m, UNEQUAL, s1) == Some(s2)
    ensures s2.out == "" && ValueOf(s2, Reg(1, I1)) == Some(Bool(false))
  {
    s1 := Store(INITIAL, 0, Dbl(NaN), None);
    s2 := Store(s1, 1, Bool(false), None);
  }

  lemma NanTestRenders(w: World, d: nat, env: Env)
    requires w.host.fpu.arith(Modulus, Finite(1.5), Finite(0.0)) == NaN
    ensures Render(w, d, If(NAN_TEST, Raw("x"), None), env).text == "x"
  {
    assert Eval(w.host, NAN_TEST.left, env) == Some(Dbl(NaN));
    assert Eval(w.host, NAN_TEST, env) == Some(Bool(true));
  }

  /** The template prints x when `1.5 % 0.0 != 1.0`, which C++ decides as true; the compiled
      function prints nothing. */
  lemma NotEqualMissesNaN(m: Machine, w: World, d: nat) returns (s: State)
    requires w.host == m.h && m.h.fpu.arith(Modulus, Finite(1.5), Finite(0.0)) == NaN
    requires LowerTemplate(If(NAN_TEST, Raw("x"), None)).Ok?
    requires m.blocks == LowerTemplate(If(NAN_TEST, Raw("x"), None)).value.blocks
    ensures Reaches(m, At(0, 0, INITIAL), Done(s)) && s.out == ""
    ensures Render(w, d, If(NAN_TEST, Raw("x"), None), DataEnv(m.data)).text == "x"
  {
    hide *;
    NanTestLowers();
    TestingCompiles(NAN_TEST, REMAINDER, UNEQUAL);
    var s1;
    s1, s := NanTestExecutes(m);
    TestingRuns(m, REMAINDER, UNEQUAL, s1, s);
    NanTestRenders(w, d, DataEnv(m.data));
  }

  /** `true == 1.0`. */
  const BOOLEAN_TEST: Expr := Cmp(Equal, BoolLit(true), DoubleLit(Finite(1.0)))

  const CONVERSION: Instr := SIToFP(0, ConstBool(true))
  const EQUAL: Instr := FCmp(1, Equal, Reg(0, DoubleTy), ConstDouble(Finite(1.0)))

  lemma BooleanTestLowers()
    ensures LowerExpr(ENTRY, BOOLEAN_TEST)
         == Ok(Computed(Reg(1, I1), ENTRY.(blocks := [Block([CONVERSION, EQUAL], None)], next := 2)))
  {
    var e := ENTRY;
    var v, z := ConstBool(true), ConstDouble(Finite(1.0));
    assert LowerExpr(e, BOOLEAN_TEST.left) == Ok(Computed(v, e));
    hide LowerExpr;
    ComparedWithOne(e, BOOLEAN_TEST, Computed(v, e));
    var c := Computed(Reg(0, DoubleTy), e.(blocks := [Block([CONVERSION], None)], next := 1));
    OneInstruction(CONVERSION, EQUAL);
    assert Convert(e, v) == Ok(c) && Convert(c.b, z) == Ok(Computed(z, c.b));
    assert CmpResult(e, Equal, v, z) == NativeComparison(e, Equal, v, z);
  }

  lemma BooleanTestExecutes(m: Machine) returns (s1: State, s2: State)
    ensures Exec(m, CONVERSION, INITIAL) == Some(s1) && Exec(m, EQUAL, s1) == Some(s2)
    ensures s2.out == "" && ValueOf(s2, Reg(1, I1)) == Some(Bool(false))
  {
    SmallIntegersAreDoubles(-1);
    assert ToDouble(-1) == Finite(-1.0);
    hide ToDouble;
    s1 := Store(INITIAL, 0, Dbl(Finite(-1.0)), None);
    s2 := Store(s1, 1, Bool(false), None);
  }

  lemma BooleanTestRenders(w: World, d: nat, env: Env)
    requires w.host.compare(Equal, Bool(true), Dbl(Finite(1.0))) == Some(true)
    ensures Render(w, d, If(BOOLEAN_TEST, Raw("x"), None), env).text == "x"
  {
    assert CompareValue(w.host, true, Equal, Bool(true), Dbl(Finite(1.0))) == Some(true);
    assert Eval(w.host, BOOLEAN_TEST, env) == Some(Bool(true));
  }

  /** The template prints x when `true == 1.0`, which Zend decides as true; the compiled function
      converts true to -1 and prints nothing. */
  lemma BooleanIsNegative(m: Machine, w: World, d: nat) returns (s: State)
    requires w.host == m.h && m.h.compare(Equal, Bool(true), Dbl(Finite(1.0))) == Some(true)
    requires LowerTemplate(If(BOOLEAN_TEST, Raw("x"), None)).Ok?
    requires m.blocks == LowerTemplate(If(BOOLEAN_TEST, Raw("x"), None)).value.blocks
    ensures Reaches(m, At(0, 0, INITIAL), Done(s)) && s.out == ""
    ensures Render(w, d, If(BOOLEAN_TEST, Raw("x"), None), DataEnv(m.data)).text == "x"
  {
    hide *;
    BooleanTestLowers();
    TestingCompiles(BOOLEAN_TEST, CONVERSION, EQUAL);
    var s1;
    s1, s := BooleanTestExecutes(m);
    TestingRuns(m, CONVERSION, EQUAL, s1, s);
    BooleanTestRenders(w, d, DataEnv(m.data));
  }

  /** Folding removes neither test. */
  lemma TestsSurviveFolding(fpu: FPU)
    ensures NativelyTyped(NAN_TEST) && Fold(fpu, NAN_TEST) == Ok(NAN_TEST)
    ensures NativelyTyped(BOOLEAN_TEST) && Fold(fpu, BOOLEAN_TEST) == Ok(BOOLEAN_TEST)
  {
    assert Fold(fpu, NAN_TEST.left) == Ok(NAN_TEST.left);
  }
}
