/** The four passes the PHP extension runs, one after the other. */
module Pipeline {
  import opened Results
  import opened Ast
  import opened Semantics
  import opened Folding
  import opened ExpressionPasses
  import opened Passes
  import opened PassProperties
  import opened Includes

  function FoldPass(w: World): Pass {
    OnExpressions(FoldConstants(w.host.fpu))
  }

  function ConvertPass(w: World): Pass {
    ConvertLiteralPrints(w.host.fpu)
  }

  /** `optimizeAST`. */
  function Optimizations(w: World, depth: nat): seq<Pass> {
    [Resolver(w, depth), FoldPass(w), ConvertPass(w), CoalesceRawBlocks]
  }

  method OptimizeAST(w: World, depth: nat, t: AST) returns (r: Walked)
    ensures r == Optimize(w, depth, t)
  {
    var manager := new PassManager();
    manager.AddPass(Resolver(w, depth));
    manager.AddPass(FoldPass(w));
    manager.AddPass(ConvertPass(w));
    manager.AddPass(CoalesceRawBlocks);
    assert manager.passes == Optimizations(w, depth);
    r := manager.Run(t);
    OptimizeIsRunAll(w, depth, t);
  }

  function Optimize(w: World, depth: nat, t: AST): Walked {
    var resolved :- Walk(Resolver(w, depth), t);
    var folded :- Walk(FoldPass(w), resolved);
    var converted :- Walk(ConvertPass(w), folded);
    Walk(CoalesceRawBlocks, converted)
  }

  lemma OptimizeIsRunAll(w: World, depth: nat, t: AST)
    ensures RunAll(Optimizations(w, depth), t) == Optimize(w, depth, t)
  {
    var ps := Optimizations(w, depth);
    assert ps == [Resolver(w, depth)] + ([FoldPass(w)] + ([ConvertPass(w)] + ([CoalesceRawBlocks] + [])));
    RunAllStep(Resolver(w, depth), ps[1..], t);
    var resolved := Walk(Resolver(w, depth), t);
    if resolved.Ok? {
      RunAllStep(FoldPass(w), ps[2..], resolved.value);
      var folded := Walk(FoldPass(w), resolved.value);
      if folded.Ok? {
        RunAllStep(ConvertPass(w), ps[3..], folded.value);
        var converted := Walk(ConvertPass(w), folded.value);
        if converted.Ok? {
          RunAllStep(CoalesceRawBlocks, [], converted.value);
        }
      }
    }
  }

  lemma RunAllStep(p: Pass, ps: seq<Pass>, t: AST)
    ensures RunAll([p] + ps, t) == if Walk(p, t).Ok? then RunAll(ps, Walk(p, t).value) else Walk(p, t)
  {
    assert ([p] + ps)[1..] == ps;
  }

  /** What the pipeline needs of a template: includes that resolve faithfully, integer
      comparisons that are decided as such, and literals that are shown at run time as the
      compiler spells them. */
  ghost predicate Optimizable(w: World, depth: nat, t: AST) {
    && ResolvesFaithfully(w, depth, t)
    && var resolved := Walk(Resolver(w, depth), t);
       && resolved.Ok?
       && Faithful(w, FoldPass(w), resolved.value)
       && var folded := Walk(FoldPass(w), resolved.value);
          && folded.Ok?
          && Faithful(w, ConvertPass(w), folded.value)
  }

  lemma {:induction false} CoalescingFaithful(w: World, t: AST)
    requires IncludeFree(t)
    ensures Faithful(w, CoalesceRawBlocks, t)
  {
    match t
    case Statements(l) => CoalescingFaithfulAll(w, l);
    case If(_, a, b) =>
      CoalescingFaithful(w, a);
      if b.Some? { CoalescingFaithful(w, b.value); }
    case For(_, _, _, a, b) =>
      CoalescingFaithful(w, a);
      if b.Some? { CoalescingFaithful(w, b.value); }
    case _ =>
  }

  lemma {:induction false} CoalescingFaithfulAll(w: World, l: seq<AST>)
    requires IncludeFreeAll(l)
    ensures FaithfulAll(w, CoalesceRawBlocks, l)
  {
    if l != [] {
      CoalescingFaithful(w, l[0]);
      CoalescingFaithfulAll(w, l[1..]);
    }
  }

  /** A resolver is settled exactly on include-free trees. */
  lemma {:induction false} ResolverSettled(w: World, depth: nat, t: AST)
    ensures Settled(Resolver(w, depth), t) <==> IncludeFree(t)
  {
    match t
    case Statements(l) => ResolverSettledAll(w, depth, l);
    case If(_, a, b) =>
      ResolverSettled(w, depth, a);
      if b.Some? { ResolverSettled(w, depth, b.value); }
    case For(_, _, _, a, b) =>
      ResolverSettled(w, depth, a);
      if b.Some? { ResolverSettled(w, depth, b.value); }
    case _ =>
  }

  lemma {:induction false} ResolverSettledAll(w: World, depth: nat, l: seq<AST>)
    ensures SettledAll(Resolver(w, depth), l) <==> IncludeFreeAll(l)
  {
    if l != [] {
      ResolverSettled(w, depth, l[0]);
      ResolverSettledAll(w, depth, l[1..]);
    }
  }

  /** The optimized template renders the same text as the original one in every
      environment, and stops at the same point when an operation fails. */
  lemma OptimizeSound(w: World, depth: nat, t: AST, env: Env)
    requires Optimizable(w, depth, t) && Optimize(w, depth, t).Ok?
    ensures Render(w, depth, Optimize(w, depth, t).value, env) == Render(w, depth, t, env)
  {
    var resolved := Walk(Resolver(w, depth), t).value;
    var folded := Walk(FoldPass(w), resolved).value;
    var converted := Walk(ConvertPass(w), folded).value;
    ResolveSound(w, depth, t, env);
    WalkSound(w, depth, FoldPass(w), resolved, env);
    WalkSound(w, depth, ConvertPass(w), folded, env);
    OptimizeStages(w, depth, t);
    CoalescingFaithful(w, converted);
    WalkSound(w, depth, CoalesceRawBlocks, converted, env);
  }

  /** Which passes are settled after each stage. */
  lemma OptimizeStages(w: World, depth: nat, t: AST)
    requires Optimize(w, depth, t).Ok?
    ensures var resolved := Walk(Resolver(w, depth), t).value;
            var folded := Walk(FoldPass(w), resolved).value;
            var converted := Walk(ConvertPass(w), folded).value;
            && IncludeFree(converted) && Flat(converted)
            && Settled(Resolver(w, depth), converted)
            && Settled(FoldPass(w), converted)
            && Settled(ConvertPass(w), converted)
  {
    var resolved := Walk(Resolver(w, depth), t).value;
    var folded := Walk(FoldPass(w), resolved).value;
    var converted := Walk(ConvertPass(w), folded).value;
    ResolvedIncludeFree(w, depth, t);
    ResolverSettled(w, depth, resolved);
    WalkKeepsSettled(Resolver(w, depth), FoldPass(w), resolved);
    WalkKeepsSettled(Resolver(w, depth), ConvertPass(w), folded);
    ResolverSettled(w, depth, converted);
    WalkSettles(FoldPass(w), resolved);
    WalkKeepsSettled(FoldPass(w), ConvertPass(w), folded);
    WalkSettles(ConvertPass(w), folded);
    WalkFlattens(ConvertPass(w), folded);
  }

  /** The optimized template is in normal form: flat, without includes, with every
      expression folded, no literal print and no two adjacent raw blocks at any depth; so
      running the pipeline again changes nothing. */
  lemma OptimizeNormalizes(w: World, depth: nat, t: AST)
    requires Optimize(w, depth, t).Ok?
    ensures var r := Optimize(w, depth, t).value;
            && Flat(r) && IncludeFree(r)
            && (forall p :: p in Optimizations(w, depth) ==> Settled(p, r))
            && Optimize(w, depth, r) == Ok(r)
  {
    var folded := Walk(FoldPass(w), Walk(Resolver(w, depth), t).value).value;
    var converted := Walk(ConvertPass(w), folded).value;
    var r := Optimize(w, depth, t).value;
    OptimizeStages(w, depth, t);
    WalkKeepsSettled(Resolver(w, depth), CoalesceRawBlocks, converted);
    WalkKeepsSettled(FoldPass(w), CoalesceRawBlocks, converted);
    WalkKeepsSettled(ConvertPass(w), CoalesceRawBlocks, converted);
    CoalescingSettles(converted);
    ResolverSettled(w, depth, r);
    WalkFlattens(CoalesceRawBlocks, converted);
    SettledIsFixed(Resolver(w, depth), r);
    SettledIsFixed(FoldPass(w), r);
    SettledIsFixed(ConvertPass(w), r);
    SettledIsFixed(CoalesceRawBlocks, r);
  }

  // ---------- When the pipeline fails ----------

  lemma {:induction false} FoldingFailsExactly(fpu: FPU, t: AST)
    requires IncludeFree(t)
    ensures Walk(OnExpressions(FoldConstants(fpu)), t).Err?
       <==> exists e :: e in Expressions(t) && Fold(fpu, e).Err?
    decreases Nodes(t), 1
  {
    match t
    case Statements(l) => FoldingAllFailsExactly(fpu, l);
    case Raw(_) =>
    case Print(e) => VisitIsFold(fpu, e);
    case If(c, a, b) => VisitIsFold(fpu, c); FoldingFailsExactly(fpu, a); FoldingOptFailsExactly(fpu, b);
    case For(_, _, it, a, b) => VisitIsFold(fpu, it); FoldingFailsExactly(fpu, a); FoldingOptFailsExactly(fpu, b);
  }

  lemma {:induction false} FoldingOptFailsExactly(fpu: FPU, o: Option<AST>)
    requires IncludeFreeOpt(o)
    ensures WalkOpt(OnExpressions(FoldConstants(fpu)), o).Err?
       <==> exists e :: e in ExpressionsOpt(o) && Fold(fpu, e).Err?
    decreases NodesOpt(o), 2
  {
    if o.Some? {
      FoldingFailsExactly(fpu, o.value);
    }
  }

  lemma {:induction false} FoldingAllFailsExactly(fpu: FPU, l: seq<AST>)
    requires IncludeFreeAll(l)
    ensures WalkAll(OnExpressions(FoldConstants(fpu)), l).Err?
       <==> exists e :: e in ExpressionsAll(l) && Fold(fpu, e).Err?
    decreases NodesAll(l), 2
  {
    if l != [] {
      FoldingFailsExactly(fpu, l[0]);
      FoldingAllFailsExactly(fpu, l[1..]);
    }
  }

  lemma {:induction false} ConvertingNeverFails(fpu: FPU, t: AST)
    ensures Walk(ConvertLiteralPrints(fpu), t).Ok?
  {
    match t
    case Statements(l) => ConvertingAllNeverFails(fpu, l);
    case If(_, a, b) =>
      ConvertingNeverFails(fpu, a);
      if b.Some? { ConvertingNeverFails(fpu, b.value); }
    case For(_, _, _, a, b) =>
      ConvertingNeverFails(fpu, a);
      if b.Some? { ConvertingNeverFails(fpu, b.value); }
    case _ =>
  }

  lemma {:induction false} ConvertingAllNeverFails(fpu: FPU, l: seq<AST>)
    ensures WalkAll(ConvertLiteralPrints(fpu), l).Ok?
  {
    if l != [] {
      ConvertingNeverFails(fpu, l[0]);
      ConvertingAllNeverFails(fpu, l[1..]);
    }
  }

  /** Some subexpression of the tree divides by zero, overflows or mixes literal kinds. */
  ghost predicate SomethingBlocks(fpu: FPU, t: AST) {
    exists e, n :: e in Expressions(t) && n in Subterms(e) && Blocks(fpu, n)
  }

  lemma FoldingBlocked(fpu: FPU, t: AST)
    requires IncludeFree(t)
    ensures Walk(OnExpressions(FoldConstants(fpu)), t).Err? <==> SomethingBlocks(fpu, t)
  {
    FoldingFailsExactly(fpu, t);
    if Walk(OnExpressions(FoldConstants(fpu)), t).Err? {
      var e :| e in Expressions(t) && Fold(fpu, e).Err?;
      FoldFailsExactly(fpu, e);
    } else if SomethingBlocks(fpu, t) {
      var e, n :| e in Expressions(t) && n in Subterms(e) && Blocks(fpu, n);
      FoldFailsExactly(fpu, e);
      assert false;
    }
  }

  /** The pipeline fails exactly when an include is unresolvable, or all can be resolved and
      folding the resolved tree is blocked. */
  lemma OptimizeFailsExactly(w: World, depth: nat, t: AST)
    ensures Optimize(w, depth, t).Err? <==>
              var resolved := Walk(Resolver(w, depth), t);
              Unresolvable(w, depth, t) || (resolved.Ok? && SomethingBlocks(w.host.fpu, resolved.value))
  {
    var resolved := Walk(Resolver(w, depth), t);
    ResolveFailsExactly(w, depth, t);
    if resolved.Ok? {
      ResolvedIncludeFree(w, depth, t);
      FoldingBlocked(w.host.fpu, resolved.value);
      var folded := Walk(FoldPass(w), resolved.value);
      if folded.Ok? {
        ConvertingNeverFails(w.host.fpu, folded.value);
        WalkFlattens(ConvertPass(w), folded.value);
        CoalescingSettles(Walk(ConvertPass(w), folded.value).value);
      }
    }
  }

  // ---------- The parser's lists ----------

  /** `add_ast_to_statements`. */
  method AddAstToStatements(list: seq<AST>, t: AST) returns (r: seq<AST>)
    ensures r == list + Splice(t)
  {
    r := list;
    if t.Statements? {
      for i := 0 to |t.list|
        invariant r == list + t.list[..i]
      {
        r := r + [t.list[i]];
      }
      assert t.list[..|t.list|] == t.list;
    } else {
      r := r + [t];
    }
  }

  /** The parser builds lists by appending spliced statements and turns them into a tree with
      FromList, so every tree it builds is flat and one coalescing walk is enough, with or
      without the passes before it. */
  lemma ParserListsAreFlat(list: seq<AST>, t: AST)
    requires FlatAll(list) && Flat(t)
    ensures FlatAll(list + Splice(t)) && Flat(FromList(list))
    ensures var r := Walk(CoalesceRawBlocks, FromList(list));
            r.Ok? && Settled(CoalesceRawBlocks, r.value)
  {
    FlatSplice(t);
    FlatConcat(list, Splice(t));
    FlatFromList(list);
    CoalescingSettles(FromList(list));
  }
}
