/** Which file an include names: the one stored under the very name if it starts with a slash,
    and otherwise one below the include base path.  And which file a failure names. */
module IncludePaths {
  import opened Results
  import opened Ast
  import opened Semantics
  import opened ExpressionPasses
  import opened Passes
  import opened Includes

  predicate Absolute(name: string) {
    "/" <= name
  }

  // ---------- One include ----------

  /** The include renders and resolves to the file stored under the path. */
  ghost predicate Uses(w: World, depth: nat, name: string, s: Option<Expr>, m: seq<Binding>, path: string) {
    var t, p := Include(name, s, m), Resolver(w, depth);
    if path !in w.files then Walk(p, t) == Err(MissingFile(path)) && forall env :: Render(w, depth, t, env) == FAILED
    else if depth == 0 then Walk(p, t) == Err(IncludesTooDeep) && forall env :: Render(w, depth, t, env) == FAILED
    else
      && (forall env ::
            Render(w, depth, t, env) == Render(w, depth - 1, w.files[path], IncludeEnv(w.host, s, m, env)))
      && match Walk(Resolver(w, depth - 1), w.files[path])
         case Err(e) => Walk(p, t) == Err(e)
         case Ok(file) => Walk(p, t) == Walk(OnExpressions(Substitution(path, s, m)), file)
  }

  /** A name that starts with a slash is used as it is, whatever the base path. */
  lemma AbsoluteInclude(w: World, depth: nat, name: string, s: Option<Expr>, m: seq<Binding>)
    requires Absolute(name)
    ensures Uses(w, depth, name, s, m, name)
  {
    assert name[0] == '/';
    hide IncludeEnv, Substitution;
  }

  /** Any other name is looked up below the base path. */
  lemma RelativeInclude(w: World, depth: nat, name: string, s: Option<Expr>, m: seq<Binding>)
    requires !Absolute(name)
    ensures Uses(w, depth, name, s, m, w.basePath + "/" + name)
  {
    hide IncludeEnv, Substitution;
  }

  /** Two names of one kind that are not equal name different files. */
  lemma PathsAreDistinct(base: string, a: string, b: string)
    requires Absolute(a) == Absolute(b) && a != b
    ensures ResolvePath(base, a) != ResolvePath(base, b)
  {
    var n := |base| + 1;
    assert (base + "/" + a)[n..] == a && (base + "/" + b)[n..] == b;
    assert !Absolute(a) && a != "" ==> a[..1] == [a[0]];
    assert !Absolute(b) && b != "" ==> b[..1] == [b[0]];
  }

  // ---------- Whole templates ----------

  predicate AbsoluteIncludes(t: AST) {
    match t
    case Statements(l) => AbsoluteIncludesAll(l)
    case If(_, a, b) => AbsoluteIncludes(a) && AbsoluteIncludesOpt(b)
    case For(_, _, _, a, b) => AbsoluteIncludes(a) && AbsoluteIncludesOpt(b)
    case Include(name, _, _) => Absolute(name)
    case _ => true
  }

  predicate AbsoluteIncludesOpt(o: Option<AST>) {
    match o
    case None => true
    case Some(t) => AbsoluteIncludes(t)
  }

  predicate AbsoluteIncludesAll(l: seq<AST>) {
    if l == [] then true else AbsoluteIncludes(l[0]) && AbsoluteIncludesAll(l[1..])
  }

  predicate AbsoluteFiles(w: World) {
    forall path :: path in w.files ==> AbsoluteIncludes(w.files[path])
  }

  /** Where all names are absolute, resolution does not depend on the base path ... */
  lemma {:induction false} ResolvesAnywhere(w: World, base: string, depth: nat, t: AST)
    requires AbsoluteIncludes(t) && AbsoluteFiles(w)
    ensures Walk(Resolver(w, depth), t) == Walk(Resolver(w.(basePath := base), depth), t)
    decreases depth, Nodes(t), 1
  {
    match t
    case Statements(l) => ResolvesAllAnywhere(w, base, depth, l);
    case If(_, a, b) => ResolvesAnywhere(w, base, depth, a); ResolvesOptAnywhere(w, base, depth, b);
    case For(_, _, _, a, b) => ResolvesAnywhere(w, base, depth, a); ResolvesOptAnywhere(w, base, depth, b);
    case Include(name, s, m) =>
      if depth > 0 && name in w.files {
        ResolvesAnywhere(w, base, depth - 1, w.files[name]);
      }
      hide Walk;
      AbsoluteInclude(w, depth, name, s, m);
      AbsoluteInclude(w.(basePath := base), depth, name, s, m);
    case _ =>
  }

  lemma {:induction false} ResolvesOptAnywhere(w: World, base: string, depth: nat, o: Option<AST>)
    requires AbsoluteIncludesOpt(o) && AbsoluteFiles(w)
    ensures WalkOpt(Resolver(w, depth), o) == WalkOpt(Resolver(w.(basePath := base), depth), o)
    decreases depth, NodesOpt(o), 2
  {
    if o.Some? {
      ResolvesAnywhere(w, base, depth, o.value);
    }
  }

  lemma {:induction false} ResolvesAllAnywhere(w: World, base: string, depth: nat, l: seq<AST>)
    requires AbsoluteIncludesAll(l) && AbsoluteFiles(w)
    ensures WalkAll(Resolver(w, depth), l) == WalkAll(Resolver(w.(basePath := base), depth), l)
    decreases depth, NodesAll(l), 2
  {
    if l != [] {
      ResolvesAnywhere(w, base, depth, l[0]);
      ResolvesAllAnywhere(w, base, depth, l[1..]);
    }
  }

  /** ... and neither does what is rendered. */
  lemma {:induction false} RendersAnywhere(w: World, base: string, depth: nat, t: AST, env: Env)
    requires AbsoluteIncludes(t) && AbsoluteFiles(w)
    ensures Render(w, depth, t, env) == Render(w.(basePath := base), depth, t, env)
    decreases depth, t, 0, 0
  {
    match t
    case Statements(l) => RendersAllAnywhere(w, base, depth, l, env);
    case If(_, a, b) =>
      RendersAnywhere(w, base, depth, a, env);
      if b.Some? { RendersAnywhere(w, base, depth, b.value, env); }
    case For(k, v, it, a, b) =>
      if b.Some? { RendersAnywhere(w, base, depth, b.value, env); }
      var c := Eval(w.host, it, env);
      if c.Some? { RendersLoopAnywhere(w, base, depth, k, v, EntriesOf(c.value), a, env); }
    case Include(name, s, m) =>
      if depth > 0 && name in w.files {
        RendersAnywhere(w, base, depth - 1, w.files[name], IncludeEnv(w.host, s, m, env));
      }
      hide Render;
      AbsoluteInclude(w, depth, name, s, m);
      AbsoluteInclude(w.(basePath := base), depth, name, s, m);
    case _ =>
  }

  lemma {:induction false} RendersAllAnywhere(w: World, base: string, depth: nat, l: seq<AST>, env: Env)
    requires AbsoluteIncludesAll(l) && AbsoluteFiles(w)
    ensures RenderAll(w, depth, l, env) == RenderAll(w.(basePath := base), depth, l, env)
    decreases depth, l, 0, 0
  {
    if l != [] {
      RendersAnywhere(w, base, depth, l[0], env);
      RendersAllAnywhere(w, base, depth, l[1..], env);
    }
  }

  lemma {:induction false} RendersLoopAnywhere(w: World, base: string, depth: nat, k: Option<string>,
                                               v: Option<string>, entries: seq<Entry>, body: AST, env: Env)
    requires AbsoluteIncludes(body) && AbsoluteFiles(w)
    ensures RenderLoop(w, depth, k, v, entries, body, env)
         == RenderLoop(w.(basePath := base), depth, k, v, entries, body, env)
    decreases depth, body, 1, |entries|
  {
    if entries != [] {
      RendersAnywhere(w, base, depth, body, Bind(env, k, v, entries[0]));
      RendersLoopAnywhere(w, base, depth, k, v, entries[1..], body, env);
    }
  }

  // ---------- What a failure reports ----------

  /** The error of a substitution: a variable without a replacement under the file's name, or
      the broken copy of a replacement. */
  predicate Reports(x: ExprPass, names: set<string>, e: PassError) {
    match e
    case MissingVariable(file, name) =>
      x.ReplaceVariables? && file == x.file && name in names && FindBinding(x.replacements, name).None?
    case NullArgument => true
    case _ => false
  }

  lemma {:induction false} VisitReports(x: ExprPass, e: Expr)
    requires !x.FoldConstants?
    ensures Visit(x, e).Err? ==> Reports(x, FreeVars(e), Visit(x, e).error)
    decreases Size(e), 0
  {
    match e
    case Var(y) =>
      match x {
        case ReplaceVariables(_, m) => if FindBinding(m, y).Some? { CloneIsExact(FindBinding(m, y).value); }
        case PrependScope(s) => CloneIsExact(s);
      }
    case Attr(b, _) => VisitReports(x, b);
    case Call(_, args) => VisitAllReports(x, args);
    case Bin(_, l, r) => VisitReports(x, l); VisitReports(x, r);
    case Un(_, b) => VisitReports(x, b);
    case Cmp(_, l, r) => VisitReports(x, l); VisitReports(x, r);
    case _ =>
  }

  lemma {:induction false} VisitAllReports(x: ExprPass, es: seq<Expr>)
    requires !x.FoldConstants?
    ensures VisitAll(x, es).Err? ==> Reports(x, FreeVarsAll(es), VisitAll(x, es).error)
    decreases SizeAll(es), 1, |es|
  {
    if es != [] {
      VisitReports(x, es[0]);
      VisitAllReports(x, es[1..]);
    }
  }

  lemma {:induction false} SubstitutionReports(x: ExprPass, t: AST)
    requires !x.FoldConstants? && IncludeFree(t)
    ensures var r := Walk(OnExpressions(x), t); r.Err? ==> Reports(x, Mentions(t), r.error)
    decreases Nodes(t), 1
  {
    match t
    case Statements(l) => SubstitutionAllReports(x, l);
    case Raw(_) =>
    case Print(e) => VisitReports(x, e);
    case If(c, a, b) =>
      VisitReports(x, c);
      SubstitutionReports(x, a);
      SubstitutionOptReports(x, b);
    case For(_, _, it, a, b) =>
      VisitReports(x, it);
      SubstitutionReports(x, a);
      SubstitutionOptReports(x, b);
  }

  lemma {:induction false} SubstitutionOptReports(x: ExprPass, o: Option<AST>)
    requires !x.FoldConstants? && IncludeFreeOpt(o)
    ensures var r := WalkOpt(OnExpressions(x), o); r.Err? ==> Reports(x, MentionsOpt(o), r.error)
    decreases NodesOpt(o), 2
  {
    if o.Some? {
      SubstitutionReports(x, o.value);
    }
  }

  lemma {:induction false} SubstitutionAllReports(x: ExprPass, l: seq<AST>)
    requires !x.FoldConstants? && IncludeFreeAll(l)
    ensures var r := WalkAll(OnExpressions(x), l); r.Err? ==> Reports(x, MentionsAll(l), r.error)
    decreases NodesAll(l), 2
  {
    if l != [] {
      SubstitutionReports(x, l[0]);
      SubstitutionAllReports(x, l[1..]);
    }
  }

  /** The file, once its own includes are resolved, mentions the variable. */
  ghost predicate FileMentions(w: World, path: string, name: string) {
    && path in w.files
    && exists d: nat ::
         var r := Walk(Resolver(w, d), w.files[path]);
         r.Ok? && name in Mentions(r.value)
  }

  /** An error names a file that is not there, or a file and a variable that it mentions. */
  ghost predicate Located(w: World, e: PassError) {
    match e
    case MissingFile(path) => path !in w.files
    case MissingVariable(path, name) => FileMentions(w, path, name)
    case IncludesTooDeep => true
    case NullArgument => true
    case _ => false
  }

  /** Whatever include makes resolution fail, through any nesting, the error leads to it. */
  lemma {:induction false} ErrorIsLocated(w: World, depth: nat, t: AST)
    ensures var r := Walk(Resolver(w, depth), t); r.Err? ==> Located(w, r.error)
    decreases depth, Nodes(t), 1
  {
    match t
    case Statements(l) => ErrorOfListIsLocated(w, depth, l);
    case If(_, a, b) => ErrorIsLocated(w, depth, a); ErrorOfOptIsLocated(w, depth, b);
    case For(_, _, _, a, b) => ErrorIsLocated(w, depth, a); ErrorOfOptIsLocated(w, depth, b);
    case Include(name, s, m) =>
      var path := ResolvePath(w.basePath, name);
      if depth > 0 && path in w.files {
        ErrorIsLocated(w, depth - 1, w.files[path]);
        var included := Walk(Resolver(w, depth - 1), w.files[path]);
        if included.Ok? {
          ResolvedIncludeFree(w, depth - 1, w.files[path]);
          SubstitutionReports(Substitution(path, s, m), included.value);
        }
      }
    case _ =>
  }

  lemma {:induction false} ErrorOfOptIsLocated(w: World, depth: nat, o: Option<AST>)
    ensures var r := WalkOpt(Resolver(w, depth), o); r.Err? ==> Located(w, r.error)
    decreases depth, NodesOpt(o), 2
  {
    if o.Some? {
      ErrorIsLocated(w, depth, o.value);
    }
  }

  lemma {:induction false} ErrorOfListIsLocated(w: World, depth: nat, l: seq<AST>)
    ensures var r := WalkAll(Resolver(w, depth), l); r.Err? ==> Located(w, r.error)
    decreases depth, NodesAll(l), 2
  {
    if l != [] {
      ErrorIsLocated(w, depth, l[0]);
      ErrorOfListIsLocated(w, depth, l[1..]);
    }
  }
}
