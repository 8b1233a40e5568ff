/** What the passes achieve: every pass flattens, folding, converting and coalescing preserve
    the rendered text, each pass leaves nothing for itself to do, and later passes do not
    undo earlier ones. */
module PassProperties {
  import opened Results
  import opened Ast
  import opened Semantics
  import opened Folding
  import opened ExpressionPasses
  import opened Passes

  // ---------- Flat trees ----------

  /** No list contains a list, and no list has exactly one statement. */
  predicate Flat(t: AST) {
    match t
    case Statements(l) => |l| != 1 && FlatAll(l)
    case If(_, a, b) => Flat(a) && FlatOpt(b)
    case For(_, _, _, a, b) => Flat(a) && FlatOpt(b)
    case _ => true
  }

  predicate FlatOpt(o: Option<AST>) {
    match o
    case None => true
    case Some(t) => Flat(t)
  }

  /** Flat statements none of which is a list. */
  predicate FlatAll(l: seq<AST>) {
    if l == [] then true else !l[0].Statements? && Flat(l[0]) && FlatAll(l[1..])
  }

  lemma {:induction false} FlatConcat(a: seq<AST>, b: seq<AST>)
    ensures FlatAll(a + b) == (FlatAll(a) && FlatAll(b))
  {
    if a == [] {
      assert a + b == b;
    } else {
      assert (a + b)[1..] == a[1..] + b;
      FlatConcat(a[1..], b);
    }
  }

  lemma FlatFromList(l: seq<AST>)
    requires FlatAll(l)
    ensures Flat(FromList(l)) && (|l| == 1 ==> !FromList(l).Statements?)
  {
  }

  lemma FlatSplice(t: AST)
    requires Flat(t)
    ensures FlatAll(Splice(t))
  {
    if !t.Statements? {
      assert [t][1..] == [];
    }
  }

  /** Whatever a pass does, the tree it returns is flat, even where it inserted the empty
      list of an empty file. */
  lemma {:induction false} WalkFlattens(p: Pass, t: AST)
    ensures Walk(p, t).Ok? ==> Flat(Walk(p, t).value)
    decreases Rank(p), 0, Nodes(t), 1
  {
    if Walk(p, t).Ok? {
      match t
      case Statements(l) =>
        WalkAllFlattens(p, OnList(p, l));
        FlatFromList(WalkAll(p, OnList(p, l)).value);
      case If(_, a, b) => WalkFlattens(p, a); WalkOptFlattens(p, b);
      case For(_, _, _, a, b) => WalkFlattens(p, a); WalkOptFlattens(p, b);
      case Include(name, s, m) =>
        if p.ResolveIncludes? {
          var path := ResolvePath(p.basePath, name);
          var included := Walk(p.(depth := p.depth - 1), p.files[path]).value;
          WalkFlattens(OnExpressions(Substitution(path, s, m)), included);
        }
      case _ =>
    }
  }

  lemma {:induction false} WalkOptFlattens(p: Pass, o: Option<AST>)
    ensures WalkOpt(p, o).Ok? ==> FlatOpt(WalkOpt(p, o).value)
    decreases Rank(p), 0, NodesOpt(o), 2
  {
    if o.Some? {
      WalkFlattens(p, o.value);
    }
  }

  lemma {:induction false} WalkAllFlattens(p: Pass, l: seq<AST>)
    ensures WalkAll(p, l).Ok? ==> FlatAll(WalkAll(p, l).value)
    decreases Rank(p), 0, NodesAll(l), 2
  {
    if l != [] && WalkAll(p, l).Ok? {
      WalkFlattens(p, l[0]);
      WalkAllFlattens(p, l[1..]);
      FlatSplice(Walk(p, l[0]).value);
      FlatConcat(Splice(Walk(p, l[0]).value), WalkAll(p, l[1..]).value);
    }
  }

  /** A pass that only rewrites expressions keeps the statements of a flat list apart, so it
      never returns a statement out of a list whose owner is about to be deleted. */
  lemma {:induction false} ExpressionPassKeepsList(x: ExprPass, l: seq<AST>)
    requires FlatAll(l)
    ensures WalkAll(OnExpressions(x), l).Ok? ==> |WalkAll(OnExpressions(x), l).value| == |l|
    decreases |l|
  {
    if l != [] && WalkAll(OnExpressions(x), l).Ok? {
      var t' := Walk(OnExpressions(x), l[0]).value;
      assert !t'.Statements?;
      ExpressionPassKeepsList(x, l[1..]);
    }
  }

  // ---------- Raw blocks ----------

  predicate NoAdjacentRaws(l: seq<AST>) {
    forall i :: 0 <= i < |l| - 1 ==> !(l[i].Raw? && l[i + 1].Raw?)
  }

  /** The statements other than raw blocks, in order. */
  function NonRaws(l: seq<AST>): seq<AST> {
    if l == [] then [] else (if l[0].Raw? then [] else [l[0]]) + NonRaws(l[1..])
  }

  /** Coalescing separates raw blocks, keeps everything else in order, and changes nothing
      where there is nothing to merge. */
  lemma {:induction false} CoalescedNormal(l: seq<AST>)
    ensures NoAdjacentRaws(Coalesced(l))
    ensures NonRaws(Coalesced(l)) == NonRaws(l)
    ensures NoAdjacentRaws(l) ==> Coalesced(l) == l
  {
    if l != [] {
      var t := Coalesced(l[1..]);
      CoalescedNormal(l[1..]);
      assert [l[0]] + l[1..] == l;
      assert NoAdjacentRaws(l) ==> NoAdjacentRaws(l[1..]);
      if l[0].Raw? && t != [] && t[0].Raw? {
        var r := Raw(l[0].text + t[0].text);
        assert Coalesced(l) == [r] + t[1..] && ([r] + t[1..])[1..] == t[1..];
      } else {
        assert Coalesced(l) == [l[0]] + t && ([l[0]] + t)[1..] == t;
      }
    }
  }

  lemma {:induction false} CoalescedRenders(w: World, depth: nat, l: seq<AST>, env: Env)
    ensures RenderAll(w, depth, Coalesced(l), env) == RenderAll(w, depth, l, env)
  {
    if l != [] {
      var t := Coalesced(l[1..]);
      CoalescedRenders(w, depth, l[1..], env);
      if l[0].Raw? && t != [] && t[0].Raw? {
        var r := Raw(l[0].text + t[0].text);
        assert ([r] + t[1..])[1..] == t[1..];
        ThenAssociates(Render(w, depth, l[0], env), Render(w, depth, t[0], env), RenderAll(w, depth, t[1..], env));
      } else {
        assert ([l[0]] + t)[1..] == t;
      }
    }
  }

  // ---------- Includes that are not resolved ----------

  /** An expression pass visits the scope of an include and every expression of its mapping,
      fails when one of them does, and changes nothing else. */
  lemma IncludeIsVisited(x: ExprPass, name: string, s: Option<Expr>, m: seq<Binding>)
    ensures var r := Walk(OnExpressions(x), Include(name, s, m));
            && (r.Ok? <==> (s.Some? ==> Visit(x, s.value).Ok?) && forall i :: 0 <= i < |m| ==> Visit(x, m[i].expr).Ok?)
            && (r.Ok? ==>
                  && r.value.Include? && r.value.name == name && r.value.scope.Some? == s.Some?
                  && (s.Some? ==> Visit(x, s.value) == Ok(r.value.scope.value))
                  && BindingsVisited(x, m, r.value.mapping))
  {
    BindingsAreVisited(x, m);
    hide Visit, OnBindings;
  }

  predicate BindingsVisited(x: ExprPass, m: seq<Binding>, m': seq<Binding>) {
    |m'| == |m| &&
    forall i :: 0 <= i < |m| ==> m'[i].name == m[i].name && Visit(x, m[i].expr) == Ok(m'[i].expr)
  }

  lemma {:induction false} BindingsAreVisited(x: ExprPass, m: seq<Binding>)
    ensures var r := OnBindings(OnExpressions(x), m);
            && (r.Ok? <==> forall i :: 0 <= i < |m| ==> Visit(x, m[i].expr).Ok?)
            && (r.Ok? ==> BindingsVisited(x, m, r.value))
    decreases m
  {
    if m != [] {
      BindingsAreVisited(x, m[1..]);
      assert forall i :: 1 <= i < |m| ==> m[i] == m[1..][i - 1];
    }
  }

  // ---------- Passes that preserve the rendered text ----------

  /** The pass may rewrite the expression without changing its value in any environment. */
  ghost predicate FaithfulExpr(w: World, p: Pass, e: Expr) {
    match p
    case OnExpressions(x) => x.FoldConstants? && x.fpu == w.host.fpu && ComparesExactly(x.fpu, e)
    case ConvertLiteralPrints(_) => true
    case CoalesceRawBlocks => true
    case ResolveIncludes(_, _, _) => false
  }

  /** A literal is shown at run time as the conversion pass spells it. */
  ghost predicate FaithfulPrint(w: World, p: Pass, e: Expr) {
    && FaithfulExpr(w, p, e)
    && (p.ConvertLiteralPrints? && IsLiteral(e) ==> Show(w.host, LiteralValue(e)) == FormatLiteral(p.fpu, e))
  }

  ghost predicate Faithful(w: World, p: Pass, t: AST) {
    match t
    case Statements(l) => FaithfulAll(w, p, l)
    case Raw(_) => true
    case Print(e) => FaithfulPrint(w, p, e)
    case If(c, a, b) => FaithfulExpr(w, p, c) && Faithful(w, p, a) && FaithfulOpt(w, p, b)
    case For(_, _, it, a, b) => FaithfulExpr(w, p, it) && Faithful(w, p, a) && FaithfulOpt(w, p, b)
    case Include(_, s, m) =>
      && !p.ResolveIncludes?
      && (s.Some? ==> FaithfulExpr(w, p, s.value))
      && forall i :: 0 <= i < |m| ==> FaithfulExpr(w, p, m[i].expr)
  }

  ghost predicate FaithfulOpt(w: World, p: Pass, o: Option<AST>) {
    match o
    case None => true
    case Some(t) => Faithful(w, p, t)
  }

  ghost predicate FaithfulAll(w: World, p: Pass, l: seq<AST>) {
    if l == [] then true else Faithful(w, p, l[0]) && FaithfulAll(w, p, l[1..])
  }

  lemma {:induction false} FaithfulCoalesced(w: World, p: Pass, l: seq<AST>)
    ensures FaithfulAll(w, p, Coalesced(l)) == FaithfulAll(w, p, l)
  {
    if l != [] {
      var t := Coalesced(l[1..]);
      FaithfulCoalesced(w, p, l[1..]);
      if l[0].Raw? && t != [] && t[0].Raw? {
        assert ([Raw(l[0].text + t[0].text)] + t[1..])[1..] == t[1..];
      } else {
        assert ([l[0]] + t)[1..] == t;
      }
    }
  }

  lemma OnExprSound(w: World, p: Pass, e: Expr, env: Env)
    requires FaithfulExpr(w, p, e) && OnExpr(p, e).Ok?
    ensures Eval(w.host, OnExpr(p, e).value, env) == Eval(w.host, e, env)
  {
    if p.OnExpressions? {
      VisitIsFold(w.host.fpu, e);
      FoldSound(w.host, e, env);
    }
  }

  lemma {:induction false} OnBindingsSound(w: World, p: Pass, m: seq<Binding>, x: string, env: Env)
    requires (forall i :: 0 <= i < |m| ==> FaithfulExpr(w, p, m[i].expr)) && OnBindings(p, m).Ok?
    ensures var e, e' := FindBinding(m, x), FindBinding(OnBindings(p, m).value, x);
            e.Some? == e'.Some? && (e.Some? ==> Eval(w.host, e'.value, env) == Eval(w.host, e.value, env))
    decreases m
  {
    if m != [] {
      OnExprSound(w, p, m[0].expr, env);
      OnBindingsSound(w, p, m[1..], x, env);
      assert OnBindings(p, m).value[1..] == OnBindings(p, m[1..]).value;
    }
  }

  /** Rewriting the scope or the mapping of an include keeps what the included file sees. */
  lemma OnIncludeSound(w: World, depth: nat, p: Pass, name: string, s: Option<Expr>, m: seq<Binding>, env: Env)
    requires Faithful(w, p, Include(name, s, m)) && OnOptional(p, s).Ok? && OnBindings(p, m).Ok?
    ensures Render(w, depth, Include(name, OnOptional(p, s).value, OnBindings(p, m).value), env)
         == Render(w, depth, Include(name, s, m), env)
  {
    var s', m' := OnOptional(p, s).value, OnBindings(p, m).value;
    var before, after := IncludeEnv(w.host, s, m, env), IncludeEnv(w.host, s', m', env);
    forall x
      ensures before(x) == after(x)
    {
      if s.Some? {
        OnExprSound(w, p, s.value, env);
      } else {
        OnBindingsSound(w, p, m, x, env);
      }
    }
    var path := ResolvePath(w.basePath, name);
    if depth > 0 && path in w.files {
      RenderAgrees(w, depth - 1, w.files[path], before, after);
    }
  }

  lemma OnPrintSound(w: World, depth: nat, p: Pass, e: Expr, env: Env)
    requires FaithfulPrint(w, p, e) && OnPrint(p, e).Ok?
    ensures Render(w, depth, OnPrint(p, e).value, env) == Render(w, depth, Print(e), env)
  {
    if p.ConvertLiteralPrints? {
      if IsLiteral(e) {
        assert Eval(w.host, e, env) == Some(LiteralValue(e));
      }
    } else {
      OnExprSound(w, p, e, env);
    }
  }

  lemma OnListSound(w: World, depth: nat, p: Pass, l: seq<AST>, env: Env)
    ensures RenderAll(w, depth, OnList(p, l), env) == RenderAll(w, depth, l, env)
    ensures FaithfulAll(w, p, OnList(p, l)) == FaithfulAll(w, p, l)
  {
    CoalescedRenders(w, depth, l, env);
    FaithfulCoalesced(w, p, l);
  }

  /** A literal print and the raw block it becomes render the same text exactly when the
      run-time library shows the literal as the pass spells it. */
  lemma ConversionExact(w: World, depth: nat, e: Expr, env: Env)
    requires IsLiteral(e)
    ensures Render(w, depth, ConvertPrint(w.host.fpu, e), env) == Render(w, depth, Print(e), env)
       <==> Show(w.host, LiteralValue(e)) == FormatLiteral(w.host.fpu, e)
  {
    assert Eval(w.host, e, env) == Some(LiteralValue(e));
  }

  lemma RenderSplice(w: World, depth: nat, t: AST, env: Env)
    ensures RenderAll(w, depth, Splice(t), env) == Render(w, depth, t, env)
  {
    if !t.Statements? {
      assert [t][1..] == [];
    }
  }

  lemma RenderFromList(w: World, depth: nat, l: seq<AST>, env: Env)
    ensures Render(w, depth, FromList(l), env) == RenderAll(w, depth, l, env)
  {
    if |l| == 1 {
      assert l[1..] == [];
    }
  }

  /** Folding, converting literal prints and coalescing raw blocks preserve the rendered
      text of a tree, failures included, in every environment. */
  lemma {:induction false} WalkSound(w: World, depth: nat, p: Pass, t: AST, env: Env)
    requires Faithful(w, p, t) && Walk(p, t).Ok?
    ensures Render(w, depth, Walk(p, t).value, env) == Render(w, depth, t, env)
    decreases Nodes(t), 1, 0
  {
    match t
    case Statements(l) =>
      OnListSound(w, depth, p, l, env);
      WalkAllSound(w, depth, p, OnList(p, l), env);
      RenderFromList(w, depth, WalkAll(p, OnList(p, l)).value, env);
    case Raw(_) =>
    case Print(e) => OnPrintSound(w, depth, p, e, env);
    case If(c, a, b) =>
      OnExprSound(w, p, c, env);
      WalkSound(w, depth, p, a, env);
      WalkOptSound(w, depth, p, b, env);
    case For(k, v, it, a, b) =>
      OnExprSound(w, p, it, env);
      WalkOptSound(w, depth, p, b, env);
      var c := Eval(w.host, it, env);
      if c.Some? {
        WalkLoopSound(w, depth, p, k, v, EntriesOf(c.value), a, env);
      }
    case Include(name, s, m) =>
      if p.OnExpressions? {
        OnIncludeSound(w, depth, p, name, s, m, env);
      }
  }

  lemma {:induction false} WalkOptSound(w: World, depth: nat, p: Pass, o: Option<AST>, env: Env)
    requires FaithfulOpt(w, p, o) && WalkOpt(p, o).Ok?
    ensures RenderOpt(w, depth, WalkOpt(p, o).value, env) == RenderOpt(w, depth, o, env)
    decreases NodesOpt(o), 2, 0
  {
    if o.Some? {
      WalkSound(w, depth, p, o.value, env);
    }
  }

  lemma {:induction false} WalkAllSound(w: World, depth: nat, p: Pass, l: seq<AST>, env: Env)
    requires FaithfulAll(w, p, l) && WalkAll(p, l).Ok?
    ensures RenderAll(w, depth, WalkAll(p, l).value, env) == RenderAll(w, depth, l, env)
    decreases NodesAll(l), 2, 0
  {
    if l != [] {
      var t' := Walk(p, l[0]).value;
      WalkSound(w, depth, p, l[0], env);
      WalkAllSound(w, depth, p, l[1..], env);
      RenderSplice(w, depth, t', env);
      RenderConcat(w, depth, Splice(t'), WalkAll(p, l[1..]).value, env);
    }
  }

  lemma {:induction false} WalkLoopSound(w: World, depth: nat, p: Pass, k: Option<string>, v: Option<string>,
                                         entries: seq<Entry>, body: AST, env: Env)
    requires Faithful(w, p, body) && Walk(p, body).Ok?
    ensures RenderLoop(w, depth, k, v, entries, Walk(p, body).value, env)
         == RenderLoop(w, depth, k, v, entries, body, env)
    decreases Nodes(body), 2, |entries|
  {
    if entries != [] {
      WalkSound(w, depth, p, body, Bind(env, k, v, entries[0]));
      WalkLoopSound(w, depth, p, k, v, entries[1..], body, env);
    }
  }

  // ---------- Nothing left to do ----------

  /** The pass would change no node of the tree. */
  predicate Settled(p: Pass, t: AST) {
    match t
    case Statements(l) => OnList(p, l) == l && SettledAll(p, l)
    case Raw(_) => true
    case Print(e) => OnPrint(p, e) == Ok(Print(e))
    case If(c, a, b) => OnExpr(p, c) == Ok(c) && Settled(p, a) && SettledOpt(p, b)
    case For(_, _, it, a, b) => OnExpr(p, it) == Ok(it) && Settled(p, a) && SettledOpt(p, b)
    case Include(_, s, m) => !p.ResolveIncludes? && OnOptional(p, s) == Ok(s) && OnBindings(p, m) == Ok(m)
  }

  predicate SettledOpt(p: Pass, o: Option<AST>) {
    match o
    case None => true
    case Some(t) => Settled(p, t)
  }

  predicate SettledAll(p: Pass, l: seq<AST>) {
    if l == [] then true else Settled(p, l[0]) && SettledAll(p, l[1..])
  }

  lemma {:induction false} SettledConcat(p: Pass, a: seq<AST>, b: seq<AST>)
    ensures SettledAll(p, a + b) == (SettledAll(p, a) && SettledAll(p, b))
  {
    if a == [] {
      assert a + b == b;
    } else {
      assert (a + b)[1..] == a[1..] + b;
      SettledConcat(p, a[1..], b);
    }
  }

  /** A pass returns a flat tree in which it has nothing left to do unchanged. */
  lemma {:induction false} SettledIsFixed(p: Pass, t: AST)
    requires Flat(t) && Settled(p, t)
    ensures Walk(p, t) == Ok(t)
    decreases Nodes(t), 1
  {
    match t
    case Statements(l) => SettledAllIsFixed(p, l);
    case If(_, a, b) => SettledIsFixed(p, a); SettledOptIsFixed(p, b);
    case For(_, _, _, a, b) => SettledIsFixed(p, a); SettledOptIsFixed(p, b);
    case _ =>
  }

  lemma {:induction false} SettledOptIsFixed(p: Pass, o: Option<AST>)
    requires FlatOpt(o) && SettledOpt(p, o)
    ensures WalkOpt(p, o) == Ok(o)
    decreases NodesOpt(o), 2
  {
    if o.Some? {
      SettledIsFixed(p, o.value);
    }
  }

  lemma {:induction false} SettledAllIsFixed(p: Pass, l: seq<AST>)
    requires FlatAll(l) && SettledAll(p, l)
    ensures WalkAll(p, l) == Ok(l)
    decreases NodesAll(l), 2
  {
    if l != [] {
      SettledIsFixed(p, l[0]);
      SettledAllIsFixed(p, l[1..]);
      assert [l[0]] + l[1..] == l;
    }
  }

  predicate IsFold(p: Pass) {
    p.OnExpressions? && p.pass.FoldConstants?
  }

  lemma OnExprSettles(p: Pass, e: Expr)
    requires !p.OnExpressions? || IsFold(p)
    ensures OnExpr(p, e).Ok? ==> OnExpr(p, OnExpr(p, e).value) == OnExpr(p, e)
  {
    if p.OnExpressions? {
      VisitIsFold(p.pass.fpu, e);
      FoldIdempotent(p.pass.fpu, e);
      if OnExpr(p, e).Ok? {
        VisitIsFold(p.pass.fpu, OnExpr(p, e).value);
      }
    }
  }

  lemma {:induction false} OnBindingsSettles(p: Pass, m: seq<Binding>)
    requires !p.OnExpressions? || IsFold(p)
    ensures OnBindings(p, m).Ok? ==> OnBindings(p, OnBindings(p, m).value) == OnBindings(p, m)
  {
    if m != [] && OnBindings(p, m).Ok? {
      OnExprSettles(p, m[0].expr);
      OnBindingsSettles(p, m[1..]);
    }
  }

  /** Folding and converting are done after one walk over any tree. */
  lemma {:induction false} WalkSettles(p: Pass, t: AST)
    requires IsFold(p) || p.ConvertLiteralPrints?
    ensures Walk(p, t).Ok? ==> Settled(p, Walk(p, t).value)
    decreases Nodes(t), 1
  {
    if Walk(p, t).Ok? {
      match t
      case Statements(l) =>
        WalkAllSettles(p, l);
        var l' := WalkAll(p, l).value;
        assert |l'| == 1 ==> Settled(p, l'[0]);
      case Raw(_) =>
      case Print(e) => OnExprSettles(p, e);
      case If(c, a, b) => OnExprSettles(p, c); WalkSettles(p, a); WalkOptSettles(p, b);
      case For(_, _, it, a, b) => OnExprSettles(p, it); WalkSettles(p, a); WalkOptSettles(p, b);
      case Include(_, s, m) =>
        IncludeSettles(p, s, m);
    }
  }

  lemma {:induction false} IncludeSettles(p: Pass, s: Option<Expr>, m: seq<Binding>)
    requires IsFold(p) || p.ConvertLiteralPrints?
    ensures OnOptional(p, s).Ok? ==> OnOptional(p, OnOptional(p, s).value) == OnOptional(p, s)
    ensures OnBindings(p, m).Ok? ==> OnBindings(p, OnBindings(p, m).value) == OnBindings(p, m)
    ensures p.ConvertLiteralPrints? ==> OnOptional(p, s) == Ok(s) && OnBindings(p, m) == Ok(m)
    decreases m
  {
    if s.Some? {
      OnExprSettles(p, s.value);
    }
    OnBindingsSettles(p, m);
    if m != [] {
      IncludeSettles(p, s, m[1..]);
      assert [m[0]] + m[1..] == m;
    }
  }

  lemma {:induction false} WalkOptSettles(p: Pass, o: Option<AST>)
    requires IsFold(p) || p.ConvertLiteralPrints?
    ensures WalkOpt(p, o).Ok? ==> SettledOpt(p, WalkOpt(p, o).value)
    decreases NodesOpt(o), 2
  {
    if o.Some? {
      WalkSettles(p, o.value);
    }
  }

  lemma {:induction false} WalkAllSettles(p: Pass, l: seq<AST>)
    requires IsFold(p) || p.ConvertLiteralPrints?
    ensures WalkAll(p, l).Ok? ==> SettledAll(p, WalkAll(p, l).value)
    decreases NodesAll(l), 2
  {
    if l != [] && WalkAll(p, l).Ok? {
      var t' := Walk(p, l[0]).value;
      WalkSettles(p, l[0]);
      WalkAllSettles(p, l[1..]);
      assert t'.Statements? || [t'][1..] == [];
      assert SettledAll(p, Splice(t'));
      SettledConcat(p, Splice(t'), WalkAll(p, l[1..]).value);
    }
  }

  // ---------- Coalescing a flat tree ----------

  /** On a flat tree one coalescing walk leaves no two raw blocks next to each other in any
      list at any depth; it never fails. */
  lemma {:induction false} CoalescingSettles(t: AST)
    requires Flat(t)
    ensures Walk(CoalesceRawBlocks, t).Ok? && Settled(CoalesceRawBlocks, Walk(CoalesceRawBlocks, t).value)
    ensures !t.Statements? ==>
              !Walk(CoalesceRawBlocks, t).value.Statements? && Walk(CoalesceRawBlocks, t).value.Raw? == t.Raw?
    decreases Nodes(t), 1
  {
    var p := CoalesceRawBlocks;
    match t
    case Statements(l) =>
      var c := Coalesced(l);
      FlatCoalesced(l);
      CoalescingAllSettles(c);
      var c' := WalkAll(p, c).value;
      CoalescedNormal(l);
      assert NoAdjacentRaws(c');
      CoalescedNormal(c');
      assert |c'| == 1 ==> Settled(p, c'[0]);
    case If(_, a, b) => CoalescingSettles(a); CoalescingOptSettles(b);
    case For(_, _, _, a, b) => CoalescingSettles(a); CoalescingOptSettles(b);
    case Include(_, s, m) => UntouchedBindings(p, m);
    case _ =>
  }

  lemma {:induction false} CoalescingOptSettles(o: Option<AST>)
    requires FlatOpt(o)
    ensures WalkOpt(CoalesceRawBlocks, o).Ok? && SettledOpt(CoalesceRawBlocks, WalkOpt(CoalesceRawBlocks, o).value)
    decreases NodesOpt(o), 2
  {
    if o.Some? {
      CoalescingSettles(o.value);
    }
  }

  lemma {:induction false} CoalescingAllSettles(l: seq<AST>)
    requires FlatAll(l)
    ensures var r := WalkAll(CoalesceRawBlocks, l);
            && r.Ok?
            && SettledAll(CoalesceRawBlocks, r.value)
            && |r.value| == |l|
            && (forall i :: 0 <= i < |l| ==> r.value[i].Raw? == l[i].Raw?)
    decreases NodesAll(l), 2
  {
    if l != [] {
      CoalescingSettles(l[0]);
      CoalescingAllSettles(l[1..]);
      var t' := Walk(CoalesceRawBlocks, l[0]).value;
      assert Splice(t') == [t'];
      var r, r' := WalkAll(CoalesceRawBlocks, l).value, WalkAll(CoalesceRawBlocks, l[1..]).value;
      assert r == [t'] + r' && r[1..] == r';
      assert forall i :: 1 <= i < |l| ==> r[i] == r'[i - 1] && l[i] == l[1..][i - 1];
    }
  }

  lemma {:induction false} FlatCoalesced(l: seq<AST>)
    requires FlatAll(l)
    ensures FlatAll(Coalesced(l))
  {
    if l != [] {
      var t := Coalesced(l[1..]);
      FlatCoalesced(l[1..]);
      if l[0].Raw? && t != [] && t[0].Raw? {
        assert ([Raw(l[0].text + t[0].text)] + t[1..])[1..] == t[1..];
      } else {
        assert ([l[0]] + t)[1..] == t;
      }
    }
  }

  lemma {:induction false} UntouchedBindings(p: Pass, m: seq<Binding>)
    requires !p.OnExpressions?
    ensures OnBindings(p, m) == Ok(m)
  {
    if m != [] {
      UntouchedBindings(p, m[1..]);
      assert [m[0]] + m[1..] == m;
    }
  }

  // ---------- Later passes do not undo earlier ones ----------

  /** `q` runs after `p` in the pipeline. */
  predicate RunsAfter(p: Pass, q: Pass) {
    || (p.ResolveIncludes? && (IsFold(q) || q.ConvertLiteralPrints? || q.CoalesceRawBlocks?))
    || (IsFold(p) && (q.ConvertLiteralPrints? || q.CoalesceRawBlocks?))
    || (p.ConvertLiteralPrints? && q.CoalesceRawBlocks?)
  }

  lemma {:induction false} SettledCoalesced(p: Pass, l: seq<AST>)
    ensures SettledAll(p, Coalesced(l)) == SettledAll(p, l)
  {
    if l != [] {
      var t := Coalesced(l[1..]);
      SettledCoalesced(p, l[1..]);
      if l[0].Raw? && t != [] && t[0].Raw? {
        assert ([Raw(l[0].text + t[0].text)] + t[1..])[1..] == t[1..];
      } else {
        assert ([l[0]] + t)[1..] == t;
      }
    }
  }

  lemma {:induction false} WalkKeepsSettled(p: Pass, q: Pass, t: AST)
    requires RunsAfter(p, q) && Settled(p, t) && Walk(q, t).Ok?
    ensures Settled(p, Walk(q, t).value)
    decreases Nodes(t), 1
  {
    match t
    case Statements(l) =>
      SettledCoalesced(p, l);
      WalkAllKeepsSettled(p, q, OnList(q, l));
      var l' := WalkAll(q, OnList(q, l)).value;
      assert |l'| == 1 ==> Settled(p, l'[0]);
    case If(_, a, b) => WalkKeepsSettled(p, q, a); WalkOptKeepsSettled(p, q, b);
    case For(_, _, _, a, b) => WalkKeepsSettled(p, q, a); WalkOptKeepsSettled(p, q, b);
    case _ =>
  }

  lemma {:induction false} WalkOptKeepsSettled(p: Pass, q: Pass, o: Option<AST>)
    requires RunsAfter(p, q) && SettledOpt(p, o) && WalkOpt(q, o).Ok?
    ensures SettledOpt(p, WalkOpt(q, o).value)
    decreases NodesOpt(o), 2
  {
    if o.Some? {
      WalkKeepsSettled(p, q, o.value);
    }
  }

  lemma {:induction false} WalkAllKeepsSettled(p: Pass, q: Pass, l: seq<AST>)
    requires RunsAfter(p, q) && SettledAll(p, l) && WalkAll(q, l).Ok?
    ensures SettledAll(p, WalkAll(q, l).value)
    decreases NodesAll(l), 2
  {
    if l != [] {
      var t' := Walk(q, l[0]).value;
      WalkKeepsSettled(p, q, l[0]);
      WalkAllKeepsSettled(p, q, l[1..]);
      assert t'.Statements? || [t'][1..] == [];
      assert SettledAll(p, Splice(t'));
      SettledConcat(p, Splice(t'), WalkAll(q, l[1..]).value);
    }
  }
}
