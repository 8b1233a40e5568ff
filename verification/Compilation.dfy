/** From the template to what its two compiled forms print: the passes, then either backend. */
module Compilation {
  import opened Results
  import opened Ast
  import opened Semantics
  import opened Folding
  import opened ExpressionPasses
  import opened Passes
  import opened PassProperties
  import opened Includes
  import opened Pipeline
  import opened Engines
  import Portability
  import Javascript
  import JavascriptSource
  import Ir
  import opened Lowering
  import opened LoweringFrames
  import opened LoweringStorage
  import opened LoweringCorrect
  import opened LoweringStatements
  import opened LoweringTheorems
  import opened LoweringAccepts
  import opened Exactness

  // ---------- Well-typed trees ----------

  /** Every native operation of the tree is well typed. */
  predicate TypedStmt(t: AST) {
    match t
    case Statements(l) => TypedStmts(l)
    case Raw(_) => true
    case Print(e) => NativelyTyped(e)
    case If(c, a, b) => NativelyTyped(c) && TypedStmt(a) && TypedOpt(b)
    case For(_, _, it, a, b) => NativelyTyped(it) && TypedStmt(a) && TypedOpt(b)
    case Include(_, _, _) => false
  }

  predicate TypedOpt(o: Option<AST>) {
    match o
    case None => true
    case Some(t) => TypedStmt(t)
  }

  predicate TypedStmts(l: seq<AST>) {
    if l == [] then true else TypedStmt(l[0]) && TypedStmts(l[1..])
  }

  lemma {:induction false} TypedConcat(a: seq<AST>, b: seq<AST>)
    ensures TypedStmts(a + b) == (TypedStmts(a) && TypedStmts(b))
  {
    if a == [] {
      assert a + b == b;
    } else {
      assert (a + b)[1..] == a[1..] + b;
      TypedConcat(a[1..], b);
    }
  }

  lemma {:induction false} TypedCoalesced(l: seq<AST>)
    ensures TypedStmts(Coalesced(l)) == TypedStmts(l)
  {
    if l != [] {
      var t := Coalesced(l[1..]);
      TypedCoalesced(l[1..]);
      if l[0].Raw? && t != [] && t[0].Raw? {
        assert ([Raw(l[0].text + t[0].text)] + t[1..])[1..] == t[1..];
      } else {
        assert ([l[0]] + t)[1..] == t;
      }
    }
  }

  /** Includes whose variables stand for variants. */
  predicate SubstitutesVariants(x: ExprPass) {
    match x
    case FoldConstants(_) => false
    case ReplaceVariables(_, m) => TypedVariants(m)
    case PrependScope(s) => NativelyTyped(s)
  }

  predicate TypedVariants(m: seq<Binding>) {
    forall b :: b in m ==> IsVariant(b.expr) && NativelyTyped(b.expr)
  }

  lemma {:induction false} FoundIsTyped(m: seq<Binding>, y: string)
    requires TypedVariants(m) && FindBinding(m, y).Some?
    ensures IsVariant(FindBinding(m, y).value) && NativelyTyped(FindBinding(m, y).value)
    decreases m
  {
    assert m[0] in m;
    if FindBinding(m[1..], y).Some? { FoundIsTyped(m[1..], y); }
  }

  predicate SameType(e: Expr, e': Expr) {
    IsVariant(e') == IsVariant(e) && (!IsVariant(e) ==> TypeOf(e') == TypeOf(e))
  }

  predicate TypesKept(x: ExprPass, e: Expr) {
    Visit(x, e).Ok? ==> NativelyTyped(Visit(x, e).value) && SameType(e, Visit(x, e).value)
  }

  lemma VariableKeepsTypes(x: ExprPass, y: string)
    requires SubstitutesVariants(x)
    ensures TypesKept(x, Var(y))
  {
    if Visit(x, Var(y)).Ok? {
      match x
      case ReplaceVariables(_, m) => FoundIsTyped(m, y); CloneIsExact(FindBinding(m, y).value);
      case PrependScope(s) => CloneIsExact(s);
    }
  }

  lemma BinaryKeepsTypes(x: ExprPass, op: BinaryOp, l: Expr, r: Expr)
    requires !x.FoldConstants? && NativelyTyped(Bin(op, l, r)) && TypesKept(x, l) && TypesKept(x, r)
    ensures TypesKept(x, Bin(op, l, r))
  {
  }

  lemma UnaryKeepsTypes(x: ExprPass, op: UnaryOp, s: Expr)
    requires !x.FoldConstants? && NativelyTyped(Un(op, s)) && TypesKept(x, s)
    ensures TypesKept(x, Un(op, s))
  {
  }

  lemma ComparisonKeepsTypes(x: ExprPass, op: ComparisonOp, l: Expr, r: Expr)
    requires !x.FoldConstants? && NativelyTyped(Cmp(op, l, r)) && TypesKept(x, l) && TypesKept(x, r)
    ensures TypesKept(x, Cmp(op, l, r))
  {
  }

  /** Variants in the place of variables: no native operation changes its operands' types. */
  lemma {:induction false} SubstitutionKeepsTypes(x: ExprPass, e: Expr)
    requires SubstitutesVariants(x) && NativelyTyped(e)
    ensures TypesKept(x, e)
    decreases e
  {
    match e
    case Var(y) => VariableKeepsTypes(x, y);
    case Attr(b, _) => SubstitutionKeepsTypes(x, b);
    case Call(_, args) => SubstitutionKeepsAllTypes(x, args);
    case Bin(op, l, r) =>
      hide TypesKept;
      SubstitutionKeepsTypes(x, l);
      SubstitutionKeepsTypes(x, r);
      BinaryKeepsTypes(x, op, l, r);
    case Un(op, s) =>
      hide TypesKept;
      SubstitutionKeepsTypes(x, s);
      UnaryKeepsTypes(x, op, s);
    case Cmp(op, l, r) =>
      hide TypesKept;
      SubstitutionKeepsTypes(x, l);
      SubstitutionKeepsTypes(x, r);
      ComparisonKeepsTypes(x, op, l, r);
    case _ =>
  }

  lemma {:induction false} SubstitutionKeepsAllTypes(x: ExprPass, es: seq<Expr>)
    requires SubstitutesVariants(x) && NativelyTypedAll(es)
    ensures VisitAll(x, es).Ok? ==> NativelyTypedAll(VisitAll(x, es).value)
    decreases es
  {
    if es != [] {
      SubstitutionKeepsTypes(x, es[0]);
      SubstitutionKeepsAllTypes(x, es[1..]);
    }
  }

  predicate KeepsTypes(p: Pass) {
    || IsFold(p) || p.ConvertLiteralPrints? || p.CoalesceRawBlocks?
    || (p.OnExpressions? && SubstitutesVariants(p.pass))
  }

  lemma OnExprTyped(p: Pass, e: Expr)
    requires KeepsTypes(p) && NativelyTyped(e) && OnExpr(p, e).Ok?
    ensures NativelyTyped(OnExpr(p, e).value)
  {
    if IsFold(p) {
      VisitIsFold(p.pass.fpu, e);
      FoldPreservesTypes(p.pass.fpu, e);
    } else if p.OnExpressions? {
      SubstitutionKeepsTypes(p.pass, e);
    }
  }

  /** Substituting variants, folding, converting and coalescing keep native operations well
      typed. */
  lemma {:induction false} WalkKeepsTypes(p: Pass, t: AST)
    requires KeepsTypes(p) && TypedStmt(t) && Walk(p, t).Ok?
    ensures TypedStmt(Walk(p, t).value)
    decreases Nodes(t), 1
  {
    match t
    case Statements(l) =>
      TypedCoalesced(l);
      WalkAllKeepsTypes(p, OnList(p, l));
      var l' := WalkAll(p, OnList(p, l)).value;
      assert |l'| == 1 ==> TypedStmt(l'[0]);
    case Raw(_) =>
    case Print(e) => OnExprTyped(p, e);
    case If(c, a, b) =>
      OnExprTyped(p, c);
      WalkKeepsTypes(p, a);
      WalkOptKeepsTypes(p, b);
    case For(_, _, it, a, b) =>
      OnExprTyped(p, it);
      WalkKeepsTypes(p, a);
      WalkOptKeepsTypes(p, b);
  }

  lemma {:induction false} WalkOptKeepsTypes(p: Pass, o: Option<AST>)
    requires KeepsTypes(p) && TypedOpt(o) && WalkOpt(p, o).Ok?
    ensures TypedOpt(WalkOpt(p, o).value)
    decreases NodesOpt(o), 2
  {
    if o.Some? {
      WalkKeepsTypes(p, o.value);
    }
  }

  lemma {:induction false} WalkAllKeepsTypes(p: Pass, l: seq<AST>)
    requires KeepsTypes(p) && TypedStmts(l) && WalkAll(p, l).Ok?
    ensures TypedStmts(WalkAll(p, l).value)
    decreases NodesAll(l), 2
  {
    if l != [] {
      var t' := Walk(p, l[0]).value;
      WalkKeepsTypes(p, l[0]);
      WalkAllKeepsTypes(p, l[1..]);
      assert t'.Statements? || [t'][1..] == [];
      assert TypedStmts(Splice(t'));
      TypedConcat(Splice(t'), WalkAll(p, l[1..]).value);
    }
  }

  // ---------- Typed templates ----------

  /** The native operations of a template and of all files it includes are well typed, and its
      includes put variants in the place of variables. */
  predicate TypedTemplate(w: World, depth: nat, t: AST)
    decreases depth, Nodes(t), 1
  {
    match t
    case Statements(l) => TypedTemplates(w, depth, l)
    case Raw(_) => true
    case Print(e) => NativelyTyped(e)
    case If(c, a, b) => NativelyTyped(c) && TypedTemplate(w, depth, a) && TypedTemplateOpt(w, depth, b)
    case For(_, _, it, a, b) => NativelyTyped(it) && TypedTemplate(w, depth, a) && TypedTemplateOpt(w, depth, b)
    case Include(name, s, m) =>
      var path := ResolvePath(w.basePath, name);
      depth > 0 && path in w.files ==>
        SubstitutesVariants(Substitution(path, s, m)) && TypedTemplate(w, depth - 1, w.files[path])
  }

  predicate TypedTemplateOpt(w: World, depth: nat, o: Option<AST>)
    decreases depth, NodesOpt(o), 2
  {
    o.Some? ==> TypedTemplate(w, depth, o.value)
  }

  predicate TypedTemplates(w: World, depth: nat, l: seq<AST>)
    decreases depth, NodesAll(l), 2
  {
    l != [] ==> TypedTemplate(w, depth, l[0]) && TypedTemplates(w, depth, l[1..])
  }

  /** Resolving the includes of such a template gives a tree of well-typed native operations. */
  lemma {:induction false} ResolvedIsTyped(w: World, depth: nat, t: AST)
    requires TypedTemplate(w, depth, t) && Walk(Resolver(w, depth), t).Ok?
    ensures TypedStmt(Walk(Resolver(w, depth), t).value)
    decreases depth, Nodes(t), 1
  {
    match t
    case Statements(l) =>
      ResolvedAreTyped(w, depth, l);
      var l' := WalkAll(Resolver(w, depth), l).value;
      assert |l'| == 1 ==> TypedStmt(l'[0]);
    case Raw(_) =>
    case Print(_) =>
    case If(_, a, b) =>
      ResolvedIsTyped(w, depth, a);
      ResolvedOptIsTyped(w, depth, b);
    case For(_, _, _, a, b) =>
      ResolvedIsTyped(w, depth, a);
      ResolvedOptIsTyped(w, depth, b);
    case Include(name, s, m) =>
      var path := ResolvePath(w.basePath, name);
      ResolvedIsTyped(w, depth - 1, w.files[path]);
      WalkKeepsTypes(OnExpressions(Substitution(path, s, m)), Walk(Resolver(w, depth - 1), w.files[path]).value);
  }

  lemma {:induction false} ResolvedOptIsTyped(w: World, depth: nat, o: Option<AST>)
    requires TypedTemplateOpt(w, depth, o) && WalkOpt(Resolver(w, depth), o).Ok?
    ensures TypedOpt(WalkOpt(Resolver(w, depth), o).value)
    decreases depth, NodesOpt(o), 2
  {
    if o.Some? {
      ResolvedIsTyped(w, depth, o.value);
    }
  }

  lemma {:induction false} ResolvedAreTyped(w: World, depth: nat, l: seq<AST>)
    requires TypedTemplates(w, depth, l) && WalkAll(Resolver(w, depth), l).Ok?
    ensures TypedStmts(WalkAll(Resolver(w, depth), l).value)
    decreases depth, NodesAll(l), 2
  {
    if l != [] {
      var t' := Walk(Resolver(w, depth), l[0]).value;
      ResolvedIsTyped(w, depth, l[0]);
      ResolvedAreTyped(w, depth, l[1..]);
      assert t'.Statements? || [t'][1..] == [];
      assert TypedStmts(Splice(t'));
      TypedConcat(Splice(t'), WalkAll(Resolver(w, depth), l[1..]).value);
    }
  }

  // ---------- Settled trees ----------

  /** Nothing is left to fold in the expressions of a settled tree. */
  lemma {:induction false} SettledExpressions(fpu: FPU, t: AST)
    requires TypedStmt(t) && Settled(OnExpressions(FoldConstants(fpu)), t)
    ensures forall e :: e in Expressions(t) ==> NativelyTyped(e) && IsFolded(fpu, e)
    decreases t
  {
    match t
    case Statements(l) => SettledExpressionsAll(fpu, l);
    case Raw(_) =>
    case Print(e) => VisitIsFold(fpu, e);
    case If(c, a, b) =>
      VisitIsFold(fpu, c);
      SettledExpressions(fpu, a);
      SettledExpressionsOpt(fpu, b);
    case For(_, _, it, a, b) =>
      VisitIsFold(fpu, it);
      SettledExpressions(fpu, a);
      SettledExpressionsOpt(fpu, b);
  }

  lemma {:induction false} SettledExpressionsOpt(fpu: FPU, o: Option<AST>)
    requires TypedOpt(o) && SettledOpt(OnExpressions(FoldConstants(fpu)), o)
    ensures forall e :: e in ExpressionsOpt(o) ==> NativelyTyped(e) && IsFolded(fpu, e)
    decreases o
  {
    if o.Some? {
      SettledExpressions(fpu, o.value);
    }
  }

  lemma {:induction false} SettledExpressionsAll(fpu: FPU, l: seq<AST>)
    requires TypedStmts(l) && SettledAll(OnExpressions(FoldConstants(fpu)), l)
    ensures forall e :: e in ExpressionsAll(l) ==> NativelyTyped(e) && IsFolded(fpu, e)
    decreases l
  {
    if l != [] {
      SettledExpressions(fpu, l[0]);
      SettledExpressionsAll(fpu, l[1..]);
    }
  }

  ghost predicate NothingDoubtfulIn(h: Host, t: AST) {
    forall e :: e in Expressions(t) ==> NothingDoubtful(h, e)
  }

  /** A tree of folded, well-typed expressions that the backend accepts is compiled exactly. */
  lemma {:induction false} FoldedTreeIsRunnable(h: Host, t: AST, scope: Scope, n: nat)
    requires forall e :: e in Expressions(t) ==> NativelyTyped(e) && IsFolded(h.fpu, e) && NothingDoubtful(h, e)
    requires AcceptedStmt(t, scope, n)
    ensures RunnableStmt(h, t)
    decreases t
  {
    hide NativelyTyped, IsFolded, NothingDoubtful, Runnable;
    match t
    case Statements(l) => FoldedTreesAreRunnable(h, l, scope, n);
    case Raw(_) =>
    case Print(e) => FoldedIsRunnable(h, e);
    case If(c, a, b) =>
      FoldedIsRunnable(h, c);
      FoldedTreeIsRunnable(h, a, scope, n);
      FoldedOptIsRunnable(h, b, scope, n);
    case For(k, v, it, a, b) =>
      FoldedIsRunnable(h, it);
      FoldedTreeIsRunnable(h, a, Bound(scope, k, v, n), n + 2);
      FoldedOptIsRunnable(h, b, scope, n);
  }

  lemma {:induction false} FoldedOptIsRunnable(h: Host, o: Option<AST>, scope: Scope, n: nat)
    requires forall e :: e in ExpressionsOpt(o) ==> NativelyTyped(e) && IsFolded(h.fpu, e) && NothingDoubtful(h, e)
    requires AcceptedOpt(o, scope, n)
    ensures RunnableOpt(h, o)
    decreases o
  {
    if o.Some? {
      FoldedTreeIsRunnable(h, o.value, scope, n);
    }
  }

  lemma {:induction false} FoldedTreesAreRunnable(h: Host, l: seq<AST>, scope: Scope, n: nat)
    requires forall e :: e in ExpressionsAll(l) ==> NativelyTyped(e) && IsFolded(h.fpu, e) && NothingDoubtful(h, e)
    requires AcceptedStmts(l, scope, n)
    ensures RunnableStmts(h, l)
    decreases l
  {
    if l != [] {
      FoldedTreeIsRunnable(h, l[0], scope, n);
      FoldedTreesAreRunnable(h, l[1..], scope, n);
    }
  }

  /** Optimizing a template whose resolved form is well typed leaves folded, well-typed
      expressions. */
  lemma OptimizedExpressions(w: World, depth: nat, t: AST)
    requires Optimize(w, depth, t).Ok? && TypedStmt(Walk(Resolver(w, depth), t).value)
    ensures forall e :: e in Expressions(Optimize(w, depth, t).value) ==> NativelyTyped(e) && IsFolded(w.host.fpu, e)
  {
    var resolved := Walk(Resolver(w, depth), t).value;
    var folded := Walk(FoldPass(w), resolved).value;
    var converted := Walk(ConvertPass(w), folded).value;
    hide TypedStmt, Expressions, NativelyTyped, IsFolded, Walk, Settled;
    WalkKeepsTypes(FoldPass(w), resolved);
    WalkKeepsTypes(ConvertPass(w), folded);
    WalkKeepsTypes(CoalesceRawBlocks, converted);
    OptimizeNormalizes(w, depth, t);
    assert FoldPass(w) in Optimizations(w, depth);
    SettledExpressions(w.host.fpu, Optimize(w, depth, t).value);
  }

  // ---------- From the template to the text ----------

  /** The template optimizes to a tree of well-typed expressions that the backend accepts and
      computes exactly, and m is its compiled function on some data. */
  ghost predicate Compiles(w: World, depth: nat, t: AST, m: Ir.Machine) {
    && Optimize(w, depth, t).Ok?
    && TypedStmt(Walk(Resolver(w, depth), t).value)
    && var r := Optimize(w, depth, t).value;
       && AcceptedStmt(r, map[], 0) && NothingDoubtfulIn(w.host, r)
       && m.h == w.host && LowerTemplate(r).Ok? && m.blocks == LowerTemplate(r).value.blocks
  }

  lemma CompilesExactly(w: World, depth: nat, t: AST, m: Ir.Machine)
    requires Compiles(w, depth, t, m)
    ensures Optimize(w, depth, t).Ok?
    ensures var r := Optimize(w, depth, t).value;
            && m.h == w.host && LowerTemplate(r).Ok? && m.blocks == LowerTemplate(r).value.blocks
            && RunnableStmt(m.h, r)
  {
    hide TypedStmt, AcceptedStmt, Walk, LowerTemplate, RunnableStmt, NativelyTyped, IsFolded, NothingDoubtful,
         Expressions;
    OptimizedExpressions(w, depth, t);
    FoldedTreeIsRunnable(w.host, Optimize(w, depth, t).value, map[], 0);
  }

  /** What the extension promises: the template, includes and all, optimized and compiled,
      prints on every run exactly what it renders. */
  lemma CompiledTemplateRenders(w: World, depth: nat, t: AST, m: Ir.Machine) returns (s: Ir.State)
    requires Optimizable(w, depth, t) && Compiles(w, depth, t, m)
    ensures Ir.Reaches(m, Ir.At(0, 0, INITIAL), Ir.Done(s))
    ensures s.out == Render(w, depth, t, DataEnv(m.data)).text
    ensures RootedStmt(Optimize(w, depth, t).value) ==> !s.dangling
    ensures ReleasableStmt(Optimize(w, depth, t).value, {}) ==>
              !s.recreated && (Render(w, depth, t, DataEnv(m.data)).ok ==> s.live == {})
  {
    hide *;
    CompilesExactly(w, depth, t, m);
    OptimizeSound(w, depth, t, DataEnv(m.data));
    s := TemplateRuns(m, w, depth, Optimize(w, depth, t).value);
  }

  /** The same for the generated JavaScript in any engine that agrees with the library on what
      rendering the optimized template evaluates. */
  lemma JavascriptTemplateRenders(j: Engine, w: World, depth: nat, t: AST, data: Env)
    requires Optimizable(w, depth, t) && Optimize(w, depth, t).Ok?
    requires Throughout(w, Agreement(j, w.host), Optimize(w, depth, t).value, data)
    ensures var r := Optimize(w, depth, t).value;
            IncludeFree(r) && JavascriptSource.RunJavascript(j, r, data) == Render(w, depth, t, data)
  {
    var r := Optimize(w, depth, t).value;
    hide *;
    OptimizeNormalizes(w, depth, t);
    OptimizeSound(w, depth, t, data);
    RenderDepth(w, depth, 0, r, data);
    JavascriptSource.RunsTheTree(j, r, data);
    Javascript.JavascriptRenders(j, w, data, r);
  }

  /** With the operations of the engine itself a template needs no such agreement when `&&` and
      `||` stand where they may and the data has what the attributes are taken of. */
  lemma PlainTemplateRenders(j: Engine, w: World, depth: nat, t: AST, data: Env)
    requires w.host == j.lib && Portability.EcmaScript(j)
    requires Optimizable(w, depth, t) && Optimize(w, depth, t).Ok? && TypedStmt(Walk(Resolver(w, depth), t).value)
    requires Portability.PlainTree(j, Optimize(w, depth, t).value)
    requires Throughout(w, Portability.Fetching(j), Optimize(w, depth, t).value, data)
    ensures var r := Optimize(w, depth, t).value;
            IncludeFree(r) && JavascriptSource.RunJavascript(j, r, data) == Render(w, depth, t, data)
  {
    hide Walk, Expressions, NativelyTyped, Throughout, Portability.EcmaScript, Portability.PlainTree,
         JavascriptSource.RunJavascript, Optimizable, Render;
    OptimizedExpressions(w, depth, t);
    Portability.PlainThroughout(j, w, Optimize(w, depth, t).value, data);
    JavascriptTemplateRenders(j, w, depth, t, data);
  }

  /** Whatever the compiled function prints, the generated JavaScript prints as well. */
  lemma BackendsAgree(j: Engine, w: World, depth: nat, t: AST, m: Ir.Machine, s: Ir.State)
    requires Optimizable(w, depth, t) && Compiles(w, depth, t, m)
    requires Throughout(w, Agreement(j, w.host), Optimize(w, depth, t).value, DataEnv(m.data))
    requires Ir.Reaches(m, Ir.At(0, 0, INITIAL), Ir.Done(s))
    ensures var r := Optimize(w, depth, t).value;
            IncludeFree(r) && s.out == JavascriptSource.RunJavascript(j, r, DataEnv(m.data)).text
  {
    hide *;
    CompilesExactly(w, depth, t, m);
    var s' := CompiledTemplateRenders(w, depth, t, m);
    Ir.ReachesOneEnd(m, Ir.At(0, 0, INITIAL), s', Ir.Done(s));
    JavascriptTemplateRenders(j, w, depth, t, DataEnv(m.data));
  }

  /** Without that agreement they need not: where a is true and f fails on 1, the JavaScript of
      `{% if a || f(1) %}x{% endif %}` prints x and the compiled function nothing. */
  lemma BackendsDisagree(j: Engine, m: Ir.Machine, v: Value) returns (s: Ir.State)
    requires DataEnv(m.data)("a") == Some(v) && IsTrue(j.lib, v) && m.h.call("f", [Int(1)]) == None
    requires m.blocks == SkippingFunction()
    ensures JavascriptSource.RunJavascript(j, Portability.SKIPPING, DataEnv(m.data)) == Outcome("x", true)
    ensures Ir.Reaches(m, Ir.At(0, 0, INITIAL), Ir.Done(s)) && s.out == ""
  {
    var w := World(m.h, map[], "");
    SkippingCompiles();
    SkippingRunnable(m.h);
    Portability.SkippedCallFails(j, w, DataEnv(m.data), v);
    hide LowerTemplate, Render, RunnableStmt, Ir.Reaches, JavascriptSource.RunJavascript, Throughout, DataEnv;
    s := TemplateRuns(m, w, 0, Portability.SKIPPING);
  }

  lemma SkippingRunnable(h: Host)
    ensures RunnableStmt(h, Portability.SKIPPING)
  {
    var f := Call("f", [IntLit(1)]);
    assert f.args[1..] == [] && RunnableAll(h, []) && Runnable(h, IntLit(1));
    assert RunnableAll(h, f.args);
    assert Runnable(h, Var("a")) && Runnable(h, f);
    assert Runnable(h, Portability.SKIPPING.cond);
    assert RunnableOpt(h, None);
  }

  lemma SkippingCompiles()
    ensures LowerTemplate(Portability.SKIPPING).Ok?
  {
    var f := Call("f", [IntLit(1)]);
    assert f.args[1..] == [] && AcceptedAll([]) && AcceptedAll(f.args);
    assert Accepted(Portability.SKIPPING.cond);
    TemplateAccepted(Portability.SKIPPING);
  }

  function SkippingFunction(): seq<Ir.Block>
  {
    SkippingCompiles();
    LowerTemplate(Portability.SKIPPING).value.blocks
  }
}
