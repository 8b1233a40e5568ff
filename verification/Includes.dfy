/** Include resolution is a substitution: the resolved tree renders in the including
    template's environment as the included file does in its own. */
module Includes {
  import opened Results
  import opened Ast
  import opened Semantics
  import opened ExpressionPasses
  import opened Passes
  import opened PassProperties

  // ---------- Substituting in expressions ----------

  /** The compiler carries out the operation at the root of the expression by itself. */
  predicate IsNative(e: Expr) {
    match e
    case Bin(_, l, r) => !IsVariant(l) && !IsVariant(r)
    case Un(_, s) => !IsVariant(s)
    case Cmp(_, l, r) => !IsVariant(l) && !IsVariant(r)
    case _ => false
  }

  /** On the values that the operands have in env, the library computes what the compiler
      does. */
  predicate LibraryAgrees(h: Host, e: Expr, env: Env) {
    match e
    case Bin(op, l, r) =>
      var a, b := Eval(h, l, env), Eval(h, r, env);
      a.Some? && b.Some? ==> h.binary(op, a.value, b.value) == BinaryValue(h, true, op, a.value, b.value)
    case Un(op, s) =>
      var a := Eval(h, s, env);
      a.Some? ==> h.unary(op, a.value) == UnaryValue(h, true, op, a.value)
    case Cmp(op, l, r) =>
      var a, b := Eval(h, l, env), Eval(h, r, env);
      a.Some? && b.Some? ==> h.compare(op, a.value, b.value) == CompareValue(h, true, op, a.value, b.value)
    case _ => true
  }

  /** Putting literals in the place of variables moves an operation from the library into the
      compiler.  That does no harm where both agree on the values its operands can have. */
  ghost predicate KeepsOperation(h: Host, x: ExprPass, e: Expr) {
    var r := Visit(x, e);
    r.Ok? && IsNative(r.value) && !IsNative(e) ==> forall env: Env :: LibraryAgrees(h, r.value, env)
  }

  ghost predicate KeepsOperations(h: Host, x: ExprPass, e: Expr) {
    match e
    case Attr(b, _) => KeepsOperations(h, x, b)
    case Call(_, args) => KeepsAllOperations(h, x, args)
    case Bin(_, l, r) => KeepsOperations(h, x, l) && KeepsOperations(h, x, r) && KeepsOperation(h, x, e)
    case Un(_, s) => KeepsOperations(h, x, s) && KeepsOperation(h, x, e)
    case Cmp(_, l, r) => KeepsOperations(h, x, l) && KeepsOperations(h, x, r) && KeepsOperation(h, x, e)
    case _ => true
  }

  ghost predicate KeepsAllOperations(h: Host, x: ExprPass, es: seq<Expr>) {
    if es == [] then true else KeepsOperations(h, x, es[0]) && KeepsAllOperations(h, x, es[1..])
  }

  /** The value of an expression after the substitution is its value before, in the
      environment of the included file. */
  lemma {:induction false} VisitSubstitutes(h: Host, path: string, s: Option<Expr>, m: seq<Binding>, e: Expr, env: Env)
    requires Visit(Substitution(path, s, m), e).Ok? && KeepsOperations(h, Substitution(path, s, m), e)
    ensures Eval(h, Visit(Substitution(path, s, m), e).value, env) == Eval(h, e, IncludeEnv(h, s, m, env))
    decreases Size(e), 0
  {
    var x := Substitution(path, s, m);
    match e
    case Var(y) =>
      if s.Some? {
        CloneIsExact(s.value);
      } else {
        CloneIsExact(FindBinding(m, y).value);
      }
    case Attr(b, _) => VisitSubstitutes(h, path, s, m, b, env);
    case Call(_, args) => VisitAllSubstitutes(h, path, s, m, args, env);
    case Bin(op, l, r) =>
      VisitSubstitutes(h, path, s, m, l, env);
      VisitSubstitutes(h, path, s, m, r, env);
      BinarySubstitutes(h, x, op, l, r, env, IncludeEnv(h, s, m, env));
    case Un(op, b) =>
      VisitSubstitutes(h, path, s, m, b, env);
      UnarySubstitutes(h, x, op, b, env, IncludeEnv(h, s, m, env));
    case Cmp(op, l, r) =>
      VisitSubstitutes(h, path, s, m, l, env);
      VisitSubstitutes(h, path, s, m, r, env);
      ComparisonSubstitutes(h, x, op, l, r, env, IncludeEnv(h, s, m, env));
    case _ =>
  }

  /** One operation, given what happens to its operands. */
  lemma BinarySubstitutes(h: Host, x: ExprPass, op: BinaryOp, l: Expr, r: Expr, env: Env, inner: Env)
    requires !x.FoldConstants? && Visit(x, Bin(op, l, r)).Ok? && KeepsOperation(h, x, Bin(op, l, r))
    requires Eval(h, Visit(x, l).value, env) == Eval(h, l, inner)
    requires Eval(h, Visit(x, r).value, env) == Eval(h, r, inner)
    ensures Eval(h, Visit(x, Bin(op, l, r)).value, env) == Eval(h, Bin(op, l, r), inner)
  {
    var e' := Bin(op, Visit(x, l).value, Visit(x, r).value);
    assert Visit(x, Bin(op, l, r)) == Ok(e');
    SubstitutionKeepsNative(x, l);
    SubstitutionKeepsNative(x, r);
    hide Visit, NativeBinary;
    assert IsNative(e') && !IsNative(Bin(op, l, r)) ==> LibraryAgrees(h, e', env);
  }

  lemma UnarySubstitutes(h: Host, x: ExprPass, op: UnaryOp, e: Expr, env: Env, inner: Env)
    requires !x.FoldConstants? && Visit(x, Un(op, e)).Ok? && KeepsOperation(h, x, Un(op, e))
    requires Eval(h, Visit(x, e).value, env) == Eval(h, e, inner)
    ensures Eval(h, Visit(x, Un(op, e)).value, env) == Eval(h, Un(op, e), inner)
  {
    var e' := Un(op, Visit(x, e).value);
    assert Visit(x, Un(op, e)) == Ok(e');
    SubstitutionKeepsNative(x, e);
    hide Visit, NativeUnary;
    assert IsNative(e') && !IsNative(Un(op, e)) ==> LibraryAgrees(h, e', env);
  }

  lemma ComparisonSubstitutes(h: Host, x: ExprPass, op: ComparisonOp, l: Expr, r: Expr, env: Env, inner: Env)
    requires !x.FoldConstants? && Visit(x, Cmp(op, l, r)).Ok? && KeepsOperation(h, x, Cmp(op, l, r))
    requires Eval(h, Visit(x, l).value, env) == Eval(h, l, inner)
    requires Eval(h, Visit(x, r).value, env) == Eval(h, r, inner)
    ensures Eval(h, Visit(x, Cmp(op, l, r)).value, env) == Eval(h, Cmp(op, l, r), inner)
  {
    var e' := Cmp(op, Visit(x, l).value, Visit(x, r).value);
    assert Visit(x, Cmp(op, l, r)) == Ok(e');
    SubstitutionKeepsNative(x, l);
    SubstitutionKeepsNative(x, r);
    hide Visit, NativeCompare;
    assert IsNative(e') && !IsNative(Cmp(op, l, r)) ==> LibraryAgrees(h, e', env);
  }

  lemma {:induction false} VisitAllSubstitutes(h: Host, path: string, s: Option<Expr>, m: seq<Binding>, es: seq<Expr>,
                                               env: Env)
    requires VisitAll(Substitution(path, s, m), es).Ok? && KeepsAllOperations(h, Substitution(path, s, m), es)
    ensures EvalAll(h, VisitAll(Substitution(path, s, m), es).value, env) == EvalAll(h, es, IncludeEnv(h, s, m, env))
    decreases SizeAll(es), 1, |es|
  {
    if es != [] {
      VisitSubstitutes(h, path, s, m, es[0], env);
      VisitAllSubstitutes(h, path, s, m, es[1..], env);
    }
  }

  /** The condition is exact: an operation whose operands keep theirs has one value before and
      after, in all environments, if and only if it is kept. */
  lemma OperationKeptExactly(h: Host, path: string, s: Option<Expr>, m: seq<Binding>, e: Expr)
    requires e.Bin? || e.Un? || e.Cmp?
    requires Visit(Substitution(path, s, m), e).Ok?
    requires e.Un? ==> KeepsOperations(h, Substitution(path, s, m), e.sub)
    requires !e.Un? ==>
      KeepsOperations(h, Substitution(path, s, m), e.left) && KeepsOperations(h, Substitution(path, s, m), e.right)
    ensures KeepsOperation(h, Substitution(path, s, m), e)
       <==> forall env: Env ::
              Eval(h, Visit(Substitution(path, s, m), e).value, env) == Eval(h, e, IncludeEnv(h, s, m, env))
  {
    var x := Substitution(path, s, m);
    var e' := Visit(x, e).value;
    if KeepsOperation(h, x, e) {
      forall env: Env
        ensures Eval(h, e', env) == Eval(h, e, IncludeEnv(h, s, m, env))
      {
        VisitSubstitutes(h, path, s, m, e, env);
      }
    } else {
      var env: Env :| !LibraryAgrees(h, e', env);
      if e.Un? {
        VisitSubstitutes(h, path, s, m, e.sub, env);
        SubstitutionKeepsNative(x, e.sub);
      } else {
        VisitSubstitutes(h, path, s, m, e.left, env);
        VisitSubstitutes(h, path, s, m, e.right, env);
      }
      assert Eval(h, e', env) != Eval(h, e, IncludeEnv(h, s, m, env));
    }
  }

  /** A substitution makes no variant of an expression that is none. */
  lemma {:induction false} SubstitutionKeepsNative(x: ExprPass, e: Expr)
    requires !x.FoldConstants? && Visit(x, e).Ok?
    ensures !IsVariant(e) ==> !IsVariant(Visit(x, e).value)
    decreases Size(e)
  {
    match e
    case Bin(_, l, r) => SubstitutionKeepsNative(x, l); SubstitutionKeepsNative(x, r);
    case Un(_, s) => SubstitutionKeepsNative(x, s);
    case _ =>
  }

  // ---------- Replacements that are variants ----------

  /** What the substitution puts in the place of y is a variant, as y is.  For a scope it
      always is one: an attribute. */
  predicate ReplacedByVariant(x: ExprPass, y: string) {
    match x
    case FoldConstants(_) => true
    case ReplaceVariables(_, m) => FindBinding(m, y).Some? ==> IsVariant(FindBinding(m, y).value)
    case PrependScope(_) => true
  }

  lemma {:induction false} VariantsStayVariants(x: ExprPass, e: Expr)
    requires !x.FoldConstants? && Visit(x, e).Ok? && forall y :: y in FreeVars(e) ==> ReplacedByVariant(x, y)
    ensures IsVariant(Visit(x, e).value) == IsVariant(e)
    decreases Size(e)
  {
    match e
    case Var(y) =>
      assert y in FreeVars(e) && ReplacedByVariant(x, y);
      match x {
        case ReplaceVariables(_, m) => CloneIsExact(FindBinding(m, y).value);
        case PrependScope(s) => CloneIsExact(s);
      }
    case Bin(_, l, r) => VariantsStayVariants(x, l); VariantsStayVariants(x, r);
    case Un(_, s) => VariantsStayVariants(x, s);
    case _ =>
  }

  /** If every variable of the expression is replaced by a variant, no operation moves,
      whatever the library computes. */
  lemma {:induction false} VariantsKeepOperations(h: Host, x: ExprPass, e: Expr)
    requires !x.FoldConstants? && forall y :: y in FreeVars(e) ==> ReplacedByVariant(x, y)
    ensures KeepsOperations(h, x, e)
    decreases e
  {
    match e
    case Attr(b, _) => VariantsKeepOperations(h, x, b);
    case Call(_, args) => VariantsKeepAllOperations(h, x, args);
    case Bin(_, l, r) =>
      VariantsKeepOperations(h, x, l);
      VariantsKeepOperations(h, x, r);
      if Visit(x, e).Ok? {
        VariantsStayVariants(x, l);
        VariantsStayVariants(x, r);
      }
    case Un(_, s) =>
      VariantsKeepOperations(h, x, s);
      if Visit(x, e).Ok? {
        VariantsStayVariants(x, s);
      }
    case Cmp(_, l, r) =>
      VariantsKeepOperations(h, x, l);
      VariantsKeepOperations(h, x, r);
      if Visit(x, e).Ok? {
        VariantsStayVariants(x, l);
        VariantsStayVariants(x, r);
      }
    case _ =>
  }

  lemma {:induction false} VariantsKeepAllOperations(h: Host, x: ExprPass, es: seq<Expr>)
    requires !x.FoldConstants? && forall y :: y in FreeVarsAll(es) ==> ReplacedByVariant(x, y)
    ensures KeepsAllOperations(h, x, es)
    decreases es
  {
    if es != [] {
      VariantsKeepOperations(h, x, es[0]);
      VariantsKeepAllOperations(h, x, es[1..]);
    }
  }

  // ---------- Substituting in statements ----------

  /** The variables that a substitution puts in the place of x. */
  function ReplacementVars(x: ExprPass, y: string): set<string> {
    match x
    case FoldConstants(_) => {y}
    case ReplaceVariables(_, m) => if FindBinding(m, y).Some? then FreeVars(FindBinding(m, y).value) else {}
    case PrependScope(s) => FreeVars(s)
  }

  /** Under a loop that binds the names in `bound` the substitution, which does not know about
      loops, leaves y what it was: a variable that the loop binds is replaced by itself, and
      any other one by an expression of which the loop binds nothing. */
  predicate Commutes(x: ExprPass, y: string, bound: set<string>) {
    if y in bound then x.ReplaceVariables? && FindBinding(x.replacements, y) == Some(Var(y))
    else ReplacementVars(x, y) !! bound
  }

  /** All loops of the tree bind what their bodies mean. */
  predicate Hygienic(x: ExprPass, t: AST) {
    match t
    case Statements(l) => HygienicAll(x, l)
    case If(_, a, b) => Hygienic(x, a) && HygienicOpt(x, b)
    case For(k, v, _, a, b) =>
      && (forall y :: y in Mentions(a) ==> Commutes(x, y, Binders(k, v)))
      && Hygienic(x, a)
      && HygienicOpt(x, b)
    case _ => true
  }

  predicate HygienicOpt(x: ExprPass, o: Option<AST>) {
    match o
    case None => true
    case Some(t) => Hygienic(x, t)
  }

  predicate HygienicAll(x: ExprPass, l: seq<AST>) {
    if l == [] then true else Hygienic(x, l[0]) && HygienicAll(x, l[1..])
  }

  /** No expression of the tree has an operation that the substitution moves with an effect. */
  ghost predicate KeepsOperationsIn(h: Host, x: ExprPass, t: AST) {
    forall e :: e in Expressions(t) ==> KeepsOperations(h, x, e)
  }

  /** An include `using` a scope keeps all operations, and so does one `with` a mapping of
      variants: nothing is asked of the library. */
  lemma VariantsKeepOperationsIn(h: Host, x: ExprPass, t: AST)
    requires !x.FoldConstants? && forall y :: y in Mentions(t) ==> ReplacedByVariant(x, y)
    ensures KeepsOperationsIn(h, x, t)
  {
    forall e | e in Expressions(t)
      ensures KeepsOperations(h, x, e)
    {
      ExpressionMentions(t, e);
      VariantsKeepOperations(h, x, e);
    }
  }

  lemma {:induction false} ExpressionMentions(t: AST, e: Expr)
    requires e in Expressions(t)
    ensures FreeVars(e) <= Mentions(t)
    decreases t
  {
    match t
    case Statements(l) => ExpressionMentionsAll(l, e);
    case If(_, a, b) =>
      if e in Expressions(a) { ExpressionMentions(a, e); }
      if b.Some? && e in Expressions(b.value) { ExpressionMentions(b.value, e); }
    case For(_, _, _, a, b) =>
      if e in Expressions(a) { ExpressionMentions(a, e); }
      if b.Some? && e in Expressions(b.value) { ExpressionMentions(b.value, e); }
    case _ =>
  }

  lemma {:induction false} ExpressionMentionsAll(l: seq<AST>, e: Expr)
    requires e in ExpressionsAll(l)
    ensures FreeVars(e) <= MentionsAll(l)
    decreases l
  {
    if e in Expressions(l[0]) { ExpressionMentions(l[0], e); } else { ExpressionMentionsAll(l[1..], e); }
  }

  /** Binding loop variables commutes with entering the included file, for the variables a
      hygienic loop body mentions. */
  lemma BindCommutes(h: Host, path: string, s: Option<Expr>, m: seq<Binding>, k: Option<string>, v: Option<string>,
                     entry: Entry, names: set<string>, env: Env)
    requires forall y :: y in names ==> Commutes(Substitution(path, s, m), y, Binders(k, v))
    ensures AgreeOn(IncludeEnv(h, s, m, Bind(env, k, v, entry)), Bind(IncludeEnv(h, s, m, env), k, v, entry), names)
  {
    var inner := Bind(env, k, v, entry);
    forall y | y in names
      ensures IncludeEnv(h, s, m, inner)(y) == Bind(IncludeEnv(h, s, m, env), k, v, entry)(y)
    {
      if s.Some? {
        EvalAgrees(h, s.value, inner, env);
      } else if FindBinding(m, y).Some? && y !in Binders(k, v) {
        EvalAgrees(h, FindBinding(m, y).value, inner, env);
      }
    }
  }

  // ---------- The condition on loops is exact ----------

  /** Entering a loop and entering the included file give y one value in either order. */
  predicate CommutesIn(h: Host, s: Option<Expr>, m: seq<Binding>, k: Option<string>, v: Option<string>, y: string,
                       env: Env, entry: Entry) {
    IncludeEnv(h, s, m, Bind(env, k, v, entry))(y) == Bind(IncludeEnv(h, s, m, env), k, v, entry)(y)
  }

  /** A variable or a chain of attributes of one. */
  predicate IsChain(e: Expr) {
    e.Var? || (e.Attr? && IsChain(e.base))
  }

  predicate IsSimple(e: Expr) {
    IsLiteral(e) || IsChain(e)
  }

  function RootName(e: Expr): (x: string)
    requires IsChain(e)
    ensures FreeVars(e) == {x}
  {
    if e.Var? then e.name else RootName(e.base)
  }

  /** A value for the root of the chain that gives the chain the value `leaf`. */
  function Nested(e: Expr, leaf: Value): Value
    requires IsChain(e)
  {
    if e.Var? then leaf else Nested(e.base, Table([Entry(Str(e.attr), leaf)]))
  }

  lemma {:induction false} ChainValue(h: Host, e: Expr, leaf: Value, env: Env)
    requires IsChain(e) && env(RootName(e)) == Some(Nested(e, leaf))
    ensures Eval(h, e, env) == Some(leaf)
    decreases e
  {
    if e.Attr? {
      ChainValue(h, e.base, Table([Entry(Str(e.attr), leaf)]), env);
    }
  }

  /** Without tables in the environment, attributes are null. */
  lemma {:induction false} FlatValue(h: Host, e: Expr, env: Env)
    requires IsSimple(e) && forall x :: env(x).Some? && !env(x).value.Table?
    ensures Eval(h, e, env).Some? && !Eval(h, e, env).value.Table?
    ensures e.Attr? ==> Eval(h, e, env) == Some(Null)
    ensures IsLiteral(e) ==> Eval(h, e, env) != Some(Null)
    ensures IsChain(e) && env(RootName(e)) == Some(Null) ==> Eval(h, e, env) == Some(Null)
    decreases e
  {
    if e.Attr? {
      FlatValue(h, e.base, env);
    }
  }

  const NULLS: Env := (x: string) => Some(Null)

  /** An environment and an element for which the order matters. */
  function Witness(s: Option<Expr>, m: seq<Binding>, k: Option<string>, v: Option<string>, y: string): Entry
  {
    var r := if s.Some? then Some(Attr(s.value, y)) else FindBinding(m, y);
    if r.None? then Entry(Int(0), Int(0))
    else if y !in Binders(k, v) then
      var n := if IsChain(r.value) then Nested(r.value, Int(0)) else Null;
      Entry(n, n)
    else if IsLiteral(r.value) then Entry(Null, Null)
    else Entry(Int(0), Int(1))
  }

  lemma OrderMatters(h: Host, path: string, s: Option<Expr>, m: seq<Binding>, k: Option<string>, v: Option<string>,
                     y: string)
    requires s.Some? ==> IsSimple(s.value)
    requires s.None? && FindBinding(m, y).Some? ==> IsSimple(FindBinding(m, y).value)
    requires !Commutes(Substitution(path, s, m), y, Binders(k, v))
    ensures !CommutesIn(h, s, m, k, v, y, NULLS, Witness(s, m, k, v, y))
  {
    var entry := Witness(s, m, k, v, y);
    var inner := Bind(NULLS, k, v, entry);
    var r := if s.Some? then Some(Attr(s.value, y)) else FindBinding(m, y);
    if r.Some? {
      if y in Binders(k, v) {
        FlatValue(h, if s.Some? then s.value else r.value, inner);
      } else {
        FlatValue(h, if s.Some? then s.value else r.value, NULLS);
        assert IsChain(r.value);
        ChainValue(h, r.value, Int(0), inner);
      }
    }
  }

  /** Where a variable is replaced by a literal or by a chain of attributes, the condition is
      exact: without it some element of some loop tells the two orders apart. */
  lemma CommutesExactly(h: Host, path: string, s: Option<Expr>, m: seq<Binding>, k: Option<string>, v: Option<string>,
                        y: string)
    requires s.Some? ==> IsSimple(s.value)
    requires s.None? && FindBinding(m, y).Some? ==> IsSimple(FindBinding(m, y).value)
    ensures (forall env: Env, entry: Entry :: CommutesIn(h, s, m, k, v, y, env, entry)) <==>
              Commutes(Substitution(path, s, m), y, Binders(k, v))
  {
    if Commutes(Substitution(path, s, m), y, Binders(k, v)) {
      forall env: Env, entry: Entry
        ensures CommutesIn(h, s, m, k, v, y, env, entry)
      {
        BindCommutes(h, path, s, m, k, v, entry, {y}, env);
      }
    } else {
      OrderMatters(h, path, s, m, k, v, y);
    }
  }

  // ---------- Substituting in whole trees ----------

  /** The substituted tree renders as the included one does in its own environment. */
  lemma {:induction false} WalkSubstitutes(w: World, depth: nat, path: string, s: Option<Expr>, m: seq<Binding>, t: AST,
                                           env: Env)
    requires IncludeFree(t) && Hygienic(Substitution(path, s, m), t)
    requires Walk(OnExpressions(Substitution(path, s, m)), t).Ok?
    requires forall e :: e in Expressions(t) ==> KeepsOperations(w.host, Substitution(path, s, m), e)
    ensures Render(w, depth, Walk(OnExpressions(Substitution(path, s, m)), t).value, env)
         == Render(w, depth, t, IncludeEnv(w.host, s, m, env))
    decreases Nodes(t), 1, 0
  {
    var p := OnExpressions(Substitution(path, s, m));
    match t
    case Statements(l) =>
      WalkAllSubstitutes(w, depth, path, s, m, l, env);
      RenderFromList(w, depth, WalkAll(p, l).value, env);
    case Raw(_) =>
    case Print(e) => VisitSubstitutes(w.host, path, s, m, e, env);
    case If(c, a, b) =>
      VisitSubstitutes(w.host, path, s, m, c, env);
      WalkSubstitutes(w, depth, path, s, m, a, env);
      WalkOptSubstitutes(w, depth, path, s, m, b, env);
    case For(k, v, it, a, b) =>
      VisitSubstitutes(w.host, path, s, m, it, env);
      WalkOptSubstitutes(w, depth, path, s, m, b, env);
      var c := Eval(w.host, it, IncludeEnv(w.host, s, m, env));
      if c.Some? {
        WalkLoopSubstitutes(w, depth, path, s, m, k, v, EntriesOf(c.value), a, env);
      }
  }

  lemma {:induction false} WalkOptSubstitutes(w: World, depth: nat, path: string, s: Option<Expr>, m: seq<Binding>,
                                              o: Option<AST>, env: Env)
    requires IncludeFreeOpt(o) && HygienicOpt(Substitution(path, s, m), o)
    requires WalkOpt(OnExpressions(Substitution(path, s, m)), o).Ok?
    requires forall e :: e in ExpressionsOpt(o) ==> KeepsOperations(w.host, Substitution(path, s, m), e)
    ensures RenderOpt(w, depth, WalkOpt(OnExpressions(Substitution(path, s, m)), o).value, env)
         == RenderOpt(w, depth, o, IncludeEnv(w.host, s, m, env))
    decreases NodesOpt(o), 2, 0
  {
    if o.Some? {
      WalkSubstitutes(w, depth, path, s, m, o.value, env);
    }
  }

  lemma {:induction false} WalkAllSubstitutes(w: World, depth: nat, path: string, s: Option<Expr>, m: seq<Binding>,
                                              l: seq<AST>, env: Env)
    requires IncludeFreeAll(l) && HygienicAll(Substitution(path, s, m), l)
    requires WalkAll(OnExpressions(Substitution(path, s, m)), l).Ok?
    requires forall e :: e in ExpressionsAll(l) ==> KeepsOperations(w.host, Substitution(path, s, m), e)
    ensures RenderAll(w, depth, WalkAll(OnExpressions(Substitution(path, s, m)), l).value, env)
         == RenderAll(w, depth, l, IncludeEnv(w.host, s, m, env))
    decreases NodesAll(l), 2, 0
  {
    if l != [] {
      var p := OnExpressions(Substitution(path, s, m));
      var t' := Walk(p, l[0]).value;
      WalkSubstitutes(w, depth, path, s, m, l[0], env);
      WalkAllSubstitutes(w, depth, path, s, m, l[1..], env);
      RenderSplice(w, depth, t', env);
      RenderConcat(w, depth, Splice(t'), WalkAll(p, l[1..]).value, env);
    }
  }

  lemma {:induction false} WalkLoopSubstitutes(w: World, depth: nat, path: string, s: Option<Expr>, m: seq<Binding>,
                                               k: Option<string>, v: Option<string>, entries: seq<Entry>, body: AST,
                                               env: Env)
    requires IncludeFree(body) && Hygienic(Substitution(path, s, m), body)
    requires forall y :: y in Mentions(body) ==> Commutes(Substitution(path, s, m), y, Binders(k, v))
    requires Walk(OnExpressions(Substitution(path, s, m)), body).Ok?
    requires forall e :: e in Expressions(body) ==> KeepsOperations(w.host, Substitution(path, s, m), e)
    ensures RenderLoop(w, depth, k, v, entries, Walk(OnExpressions(Substitution(path, s, m)), body).value, env)
         == RenderLoop(w, depth, k, v, entries, body, IncludeEnv(w.host, s, m, env))
    decreases Nodes(body), 2, |entries|
  {
    if entries != [] {
      var outer := IncludeEnv(w.host, s, m, env);
      var inner := Bind(env, k, v, entries[0]);
      WalkSubstitutes(w, depth, path, s, m, body, inner);
      BindCommutes(w.host, path, s, m, k, v, entries[0], Mentions(body), env);
      RenderAgrees(w, depth, body, IncludeEnv(w.host, s, m, inner), Bind(outer, k, v, entries[0]));
      WalkLoopSubstitutes(w, depth, path, s, m, k, v, entries[1..], body, env);
    }
  }

  // ---------- When a substitution fails ----------

  /** The variable has no replacement, or one whose copy is broken. */
  predicate Irreplaceable(x: ExprPass, y: string) {
    match x
    case FoldConstants(_) => false
    case ReplaceVariables(_, m) => FindBinding(m, y).None? || PassesArguments(FindBinding(m, y).value)
    case PrependScope(s) => PassesArguments(s)
  }

  lemma {:induction false} VisitFailsExactly(x: ExprPass, e: Expr)
    requires !x.FoldConstants?
    ensures Visit(x, e).Err? <==> exists y :: y in FreeVars(e) && Irreplaceable(x, y)
    decreases Size(e), 0
  {
    match e
    case Var(y) =>
      assert y in FreeVars(e);
      match x {
        case ReplaceVariables(_, m) => if FindBinding(m, y).Some? { CloneIsExact(FindBinding(m, y).value); }
        case PrependScope(s) => CloneIsExact(s);
      }
    case Attr(b, _) => VisitFailsExactly(x, b);
    case Call(_, args) => VisitAllFailsExactly(x, args);
    case Bin(_, l, r) =>
      hide Irreplaceable, FreeVars;
      VisitFailsExactly(x, l);
      VisitFailsExactly(x, r);
      EitherIrreplaceable(x, e);
    case Un(_, b) => VisitFailsExactly(x, b);
    case Cmp(_, l, r) =>
      hide Irreplaceable, FreeVars;
      VisitFailsExactly(x, l);
      VisitFailsExactly(x, r);
      EitherIrreplaceable(x, e);
    case _ =>
  }

  lemma EitherIrreplaceable(x: ExprPass, e: Expr)
    requires e.Bin? || e.Cmp?
    ensures (exists y :: y in FreeVars(e) && Irreplaceable(x, y))
       <==> (exists y :: y in FreeVars(e.left) && Irreplaceable(x, y))
            || (exists y :: y in FreeVars(e.right) && Irreplaceable(x, y))
  {
    assert FreeVars(e) == FreeVars(e.left) + FreeVars(e.right);
    hide Irreplaceable, FreeVars;
  }

  lemma {:induction false} VisitAllFailsExactly(x: ExprPass, es: seq<Expr>)
    requires !x.FoldConstants?
    ensures VisitAll(x, es).Err? <==> exists y :: y in FreeVarsAll(es) && Irreplaceable(x, y)
    decreases SizeAll(es), 1, |es|
  {
    if es != [] {
      VisitFailsExactly(x, es[0]);
      VisitAllFailsExactly(x, es[1..]);
    }
  }

  /** Including a file fails exactly when some expression of its resolved tree, loop
      variables included, mentions a variable that cannot be replaced. */
  lemma {:induction false} SubstitutionFailsExactly(x: ExprPass, t: AST)
    requires !x.FoldConstants? && IncludeFree(t)
    ensures Walk(OnExpressions(x), t).Err? <==> exists y :: y in Mentions(t) && Irreplaceable(x, y)
    decreases Nodes(t), 1
  {
    match t
    case Statements(l) => SubstitutionAllFailsExactly(x, l);
    case Raw(_) =>
    case Print(e) => VisitFailsExactly(x, e);
    case If(c, a, b) =>
      VisitFailsExactly(x, c);
      SubstitutionFailsExactly(x, a);
      SubstitutionOptFailsExactly(x, b);
    case For(_, _, it, a, b) =>
      VisitFailsExactly(x, it);
      SubstitutionFailsExactly(x, a);
      SubstitutionOptFailsExactly(x, b);
  }

  lemma {:induction false} SubstitutionOptFailsExactly(x: ExprPass, o: Option<AST>)
    requires !x.FoldConstants? && IncludeFreeOpt(o)
    ensures WalkOpt(OnExpressions(x), o).Err? <==> exists y :: y in MentionsOpt(o) && Irreplaceable(x, y)
    decreases NodesOpt(o), 2
  {
    if o.Some? {
      SubstitutionFailsExactly(x, o.value);
    }
  }

  lemma {:induction false} SubstitutionAllFailsExactly(x: ExprPass, l: seq<AST>)
    requires !x.FoldConstants? && IncludeFreeAll(l)
    ensures WalkAll(OnExpressions(x), l).Err? <==> exists y :: y in MentionsAll(l) && Irreplaceable(x, y)
    decreases NodesAll(l), 2
  {
    if l != [] {
      SubstitutionFailsExactly(x, l[0]);
      SubstitutionAllFailsExactly(x, l[1..]);
    }
  }

  // ---------- Resolving whole templates ----------

  function Resolver(w: World, depth: nat): Pass {
    ResolveIncludes(w.files, w.basePath, depth)
  }

  lemma {:induction false} RewritingKeepsIncludeFree(x: ExprPass, t: AST)
    requires IncludeFree(t)
    ensures Walk(OnExpressions(x), t).Ok? ==> IncludeFree(Walk(OnExpressions(x), t).value)
    decreases Nodes(t), 1
  {
    if Walk(OnExpressions(x), t).Ok? {
      match t
      case Statements(l) => RewritingAllKeepsIncludeFree(x, l);
      case If(_, a, b) => RewritingKeepsIncludeFree(x, a); RewritingOptKeepsIncludeFree(x, b);
      case For(_, _, _, a, b) => RewritingKeepsIncludeFree(x, a); RewritingOptKeepsIncludeFree(x, b);
      case _ =>
    }
  }

  lemma {:induction false} RewritingOptKeepsIncludeFree(x: ExprPass, o: Option<AST>)
    requires IncludeFreeOpt(o)
    ensures WalkOpt(OnExpressions(x), o).Ok? ==> IncludeFreeOpt(WalkOpt(OnExpressions(x), o).value)
    decreases NodesOpt(o), 2
  {
    if o.Some? {
      RewritingKeepsIncludeFree(x, o.value);
    }
  }

  lemma {:induction false} RewritingAllKeepsIncludeFree(x: ExprPass, l: seq<AST>)
    requires IncludeFreeAll(l)
    ensures WalkAll(OnExpressions(x), l).Ok? ==> IncludeFreeAll(WalkAll(OnExpressions(x), l).value)
    decreases NodesAll(l), 2
  {
    if l != [] && WalkAll(OnExpressions(x), l).Ok? {
      RewritingKeepsIncludeFree(x, l[0]);
      RewritingAllKeepsIncludeFree(x, l[1..]);
      IncludeFreeSpliced(Walk(OnExpressions(x), l[0]).value, WalkAll(OnExpressions(x), l[1..]).value);
    }
  }

  lemma IncludeFreeSpliced(t: AST, l: seq<AST>)
    requires IncludeFree(t) && IncludeFreeAll(l)
    ensures IncludeFreeAll(Splice(t) + l)
  {
    assert t.Statements? || [t][1..] == [];
    IncludeFreeConcat(Splice(t), l);
  }

  /** After resolution no include is left anywhere in the tree. */
  lemma {:induction false} ResolvedIncludeFree(w: World, depth: nat, t: AST)
    ensures Walk(Resolver(w, depth), t).Ok? ==> IncludeFree(Walk(Resolver(w, depth), t).value)
    decreases depth, Nodes(t), 1
  {
    if Walk(Resolver(w, depth), t).Ok? {
      match t
      case Statements(l) => ResolvedAllIncludeFree(w, depth, l);
      case If(_, a, b) => ResolvedIncludeFree(w, depth, a); ResolvedOptIncludeFree(w, depth, b);
      case For(_, _, _, a, b) => ResolvedIncludeFree(w, depth, a); ResolvedOptIncludeFree(w, depth, b);
      case Include(name, s, m) =>
        var path := ResolvePath(w.basePath, name);
        ResolvedIncludeFree(w, depth - 1, w.files[path]);
        var included := Walk(Resolver(w, depth - 1), w.files[path]).value;
        RewritingKeepsIncludeFree(Substitution(path, s, m), included);
      case _ =>
    }
  }

  lemma {:induction false} ResolvedOptIncludeFree(w: World, depth: nat, o: Option<AST>)
    ensures WalkOpt(Resolver(w, depth), o).Ok? ==> IncludeFreeOpt(WalkOpt(Resolver(w, depth), o).value)
    decreases depth, NodesOpt(o), 2
  {
    if o.Some? {
      ResolvedIncludeFree(w, depth, o.value);
    }
  }

  lemma {:induction false} ResolvedAllIncludeFree(w: World, depth: nat, l: seq<AST>)
    ensures WalkAll(Resolver(w, depth), l).Ok? ==> IncludeFreeAll(WalkAll(Resolver(w, depth), l).value)
    decreases depth, NodesAll(l), 2
  {
    if l != [] && WalkAll(Resolver(w, depth), l).Ok? {
      ResolvedIncludeFree(w, depth, l[0]);
      ResolvedAllIncludeFree(w, depth, l[1..]);
      IncludeFreeSpliced(Walk(Resolver(w, depth), l[0]).value, WalkAll(Resolver(w, depth), l[1..]).value);
    }
  }

  /** At every include, through all nested ones, the substitution is hygienic for the
      resolved tree of the included file and keeps its operations. */
  ghost predicate ResolvesFaithfully(w: World, depth: nat, t: AST)
    decreases depth, Nodes(t), 1
  {
    match t
    case Statements(l) => ResolvesFaithfullyAll(w, depth, l)
    case If(_, a, b) => ResolvesFaithfully(w, depth, a) && ResolvesFaithfullyOpt(w, depth, b)
    case For(_, _, _, a, b) => ResolvesFaithfully(w, depth, a) && ResolvesFaithfullyOpt(w, depth, b)
    case Include(name, s, m) =>
      var path := ResolvePath(w.basePath, name);
      depth > 0 && path in w.files ==>
        && ResolvesFaithfully(w, depth - 1, w.files[path])
        && var r := Walk(Resolver(w, depth - 1), w.files[path]);
           (r.Ok? ==>
              && Hygienic(Substitution(path, s, m), r.value)
              && KeepsOperationsIn(w.host, Substitution(path, s, m), r.value))
    case _ => true
  }

  ghost predicate ResolvesFaithfullyOpt(w: World, depth: nat, o: Option<AST>)
    decreases depth, NodesOpt(o), 2
  {
    match o
    case None => true
    case Some(t) => ResolvesFaithfully(w, depth, t)
  }

  ghost predicate ResolvesFaithfullyAll(w: World, depth: nat, l: seq<AST>)
    decreases depth, NodesAll(l), 2
  {
    if l == [] then true
    else ResolvesFaithfully(w, depth, l[0]) && ResolvesFaithfullyAll(w, depth, l[1..])
  }

  /** Resolving includes preserves the rendered text through any depth of nesting: the
      resolved tree renders in the caller's environment as the template does when every
      included file is rendered in the environment of its scope or mapping. */
  lemma {:induction false} ResolveSound(w: World, depth: nat, t: AST, env: Env)
    requires ResolvesFaithfully(w, depth, t)
    requires Walk(Resolver(w, depth), t).Ok?
    ensures Render(w, depth, Walk(Resolver(w, depth), t).value, env) == Render(w, depth, t, env)
    decreases depth, Nodes(t), 1, 0
  {
    var p := Resolver(w, depth);
    match t
    case Statements(l) =>
      ResolveAllSound(w, depth, l, env);
      RenderFromList(w, depth, WalkAll(p, l).value, env);
    case Raw(_) =>
    case Print(e) =>
    case If(c, a, b) =>
      ResolveSound(w, depth, a, env);
      ResolveOptSound(w, depth, b, env);
    case For(k, v, it, a, b) =>
      ResolveOptSound(w, depth, b, env);
      var c := Eval(w.host, it, env);
      if c.Some? {
        ResolveLoopSound(w, depth, k, v, EntriesOf(c.value), a, env);
      }
    case Include(name, s, m) => ResolveIncludeSound(w, depth, name, s, m, env);
  }

  lemma ResolveIncludeSound(w: World, depth: nat, name: string, s: Option<Expr>, m: seq<Binding>, env: Env)
    requires ResolvesFaithfully(w, depth, Include(name, s, m))
    requires Walk(Resolver(w, depth), Include(name, s, m)).Ok?
    ensures Render(w, depth, Walk(Resolver(w, depth), Include(name, s, m)).value, env)
            == Render(w, depth, Include(name, s, m), env)
    decreases depth, 0, 0, 1
  {
    var path := ResolvePath(w.basePath, name);
    var included := Walk(Resolver(w, depth - 1), w.files[path]).value;
    var inner := IncludeEnv(w.host, s, m, env);
    ResolveSound(w, depth - 1, w.files[path], inner);
    ResolvedIncludeFree(w, depth - 1, w.files[path]);
    WalkSubstitutes(w, depth, path, s, m, included, env);
    RenderDepth(w, depth, depth - 1, included, inner);
  }

  lemma {:induction false} ResolveOptSound(w: World, depth: nat, o: Option<AST>, env: Env)
    requires ResolvesFaithfullyOpt(w, depth, o)
    requires WalkOpt(Resolver(w, depth), o).Ok?
    ensures RenderOpt(w, depth, WalkOpt(Resolver(w, depth), o).value, env) == RenderOpt(w, depth, o, env)
    decreases depth, NodesOpt(o), 2, 0
  {
    if o.Some? {
      ResolveSound(w, depth, o.value, env);
    }
  }

  lemma {:induction false} ResolveAllSound(w: World, depth: nat, l: seq<AST>, env: Env)
    requires ResolvesFaithfullyAll(w, depth, l)
    requires WalkAll(Resolver(w, depth), l).Ok?
    ensures RenderAll(w, depth, WalkAll(Resolver(w, depth), l).value, env) == RenderAll(w, depth, l, env)
    decreases depth, NodesAll(l), 2, 0
  {
    if l != [] {
      var p := Resolver(w, depth);
      var t' := Walk(p, l[0]).value;
      ResolveSound(w, depth, l[0], env);
      ResolveAllSound(w, depth, l[1..], env);
      RenderSplice(w, depth, t', env);
      RenderConcat(w, depth, Splice(t'), WalkAll(p, l[1..]).value, env);
    }
  }

  lemma {:induction false} ResolveLoopSound(w: World, depth: nat, k: Option<string>, v: Option<string>,
                                            entries: seq<Entry>, body: AST, env: Env)
    requires ResolvesFaithfully(w, depth, body)
    requires Walk(Resolver(w, depth), body).Ok?
    ensures RenderLoop(w, depth, k, v, entries, Walk(Resolver(w, depth), body).value, env)
         == RenderLoop(w, depth, k, v, entries, body, env)
    decreases depth, Nodes(body), 2, |entries|
  {
    if entries != [] {
      ResolveSound(w, depth, body, Bind(env, k, v, entries[0]));
      ResolveLoopSound(w, depth, k, v, entries[1..], body, env);
    }
  }

  // ---------- When resolution fails ----------

  /** The variables that the resolved tree mentions: those of every expression, where an
      included file contributes the variables of what replaces its own. */
  function MentionsResolved(w: World, depth: nat, t: AST): set<string>
    decreases depth, Nodes(t), 1
  {
    match t
    case Statements(l) => MentionsResolvedAll(w, depth, l)
    case Raw(_) => {}
    case Print(e) => FreeVars(e)
    case If(c, a, b) => FreeVars(c) + MentionsResolved(w, depth, a) + MentionsResolvedOpt(w, depth, b)
    case For(_, _, it, a, b) => FreeVars(it) + MentionsResolved(w, depth, a) + MentionsResolvedOpt(w, depth, b)
    case Include(name, s, m) =>
      var path := ResolvePath(w.basePath, name);
      if depth == 0 || path !in w.files then {}
      else
        set y, z | y in MentionsResolved(w, depth - 1, w.files[path])
          && z in ReplacementVars(Substitution(path, s, m), y) :: z
  }

  function MentionsResolvedOpt(w: World, depth: nat, o: Option<AST>): set<string>
    decreases depth, NodesOpt(o), 2
  {
    match o
    case None => {}
    case Some(t) => MentionsResolved(w, depth, t)
  }

  function MentionsResolvedAll(w: World, depth: nat, l: seq<AST>): set<string>
    decreases depth, NodesAll(l), 2
  {
    if l == [] then {} else MentionsResolved(w, depth, l[0]) + MentionsResolvedAll(w, depth, l[1..])
  }

  /** Some include that is reached names a file that does not exist, nests too deep, or gives
      no usable replacement for a variable of its resolved file. */
  predicate Unresolvable(w: World, depth: nat, t: AST)
    decreases depth, Nodes(t), 1
  {
    match t
    case Statements(l) => UnresolvableAll(w, depth, l)
    case If(_, a, b) => Unresolvable(w, depth, a) || UnresolvableOpt(w, depth, b)
    case For(_, _, _, a, b) => Unresolvable(w, depth, a) || UnresolvableOpt(w, depth, b)
    case Include(name, s, m) =>
      var path := ResolvePath(w.basePath, name);
      || path !in w.files
      || depth == 0
      || Unresolvable(w, depth - 1, w.files[path])
      || exists y :: y in MentionsResolved(w, depth - 1, w.files[path]) && Irreplaceable(Substitution(path, s, m), y)
    case _ => false
  }

  predicate UnresolvableOpt(w: World, depth: nat, o: Option<AST>)
    decreases depth, NodesOpt(o), 2
  {
    match o
    case None => false
    case Some(t) => Unresolvable(w, depth, t)
  }

  predicate UnresolvableAll(w: World, depth: nat, l: seq<AST>)
    decreases depth, NodesAll(l), 2
  {
    if l == [] then false else Unresolvable(w, depth, l[0]) || UnresolvableAll(w, depth, l[1..])
  }

  /** Substitution replaces the variables an expression mentions and no others. */
  lemma {:induction false} VisitMentions(x: ExprPass, e: Expr)
    requires !x.FoldConstants? && Visit(x, e).Ok?
    ensures forall z :: z in FreeVars(Visit(x, e).value) <==> exists y :: y in FreeVars(e) && z in ReplacementVars(x, y)
    decreases Size(e), 0
  {
    match e
    case Var(y) =>
      assert y in FreeVars(e);
      match x {
        case ReplaceVariables(_, m) => CloneIsExact(FindBinding(m, y).value);
        case PrependScope(s) => CloneIsExact(s);
      }
    case Attr(b, _) => VisitMentions(x, b);
    case Call(_, args) => VisitAllMentions(x, args);
    case Bin(_, l, r) => VisitMentions(x, l); VisitMentions(x, r);
    case Un(_, s) => VisitMentions(x, s);
    case Cmp(_, l, r) => VisitMentions(x, l); VisitMentions(x, r);
    case _ =>
  }

  lemma {:induction false} VisitAllMentions(x: ExprPass, es: seq<Expr>)
    requires !x.FoldConstants? && VisitAll(x, es).Ok?
    ensures forall z ::
      z in FreeVarsAll(VisitAll(x, es).value) <==> exists y :: y in FreeVarsAll(es) && z in ReplacementVars(x, y)
    decreases SizeAll(es), 1, |es|
  {
    if es != [] {
      VisitMentions(x, es[0]);
      VisitAllMentions(x, es[1..]);
    }
  }

  lemma {:induction false} WalkMentions(x: ExprPass, t: AST)
    requires !x.FoldConstants? && IncludeFree(t) && Walk(OnExpressions(x), t).Ok?
    ensures forall z ::
      z in Mentions(Walk(OnExpressions(x), t).value) <==> exists y :: y in Mentions(t) && z in ReplacementVars(x, y)
    decreases Nodes(t), 1
  {
    match t
    case Statements(l) =>
      WalkAllMentions(x, l);
      MentionsFromList(WalkAll(OnExpressions(x), l).value);
    case Raw(_) =>
    case Print(e) => VisitMentions(x, e);
    case If(c, a, b) =>
      VisitMentions(x, c);
      WalkMentions(x, a);
      WalkOptMentions(x, b);
    case For(_, _, it, a, b) =>
      VisitMentions(x, it);
      WalkMentions(x, a);
      WalkOptMentions(x, b);
  }

  lemma {:induction false} WalkOptMentions(x: ExprPass, o: Option<AST>)
    requires !x.FoldConstants? && IncludeFreeOpt(o) && WalkOpt(OnExpressions(x), o).Ok?
    ensures forall z ::
      z in MentionsOpt(WalkOpt(OnExpressions(x), o).value) <==>
        exists y :: y in MentionsOpt(o) && z in ReplacementVars(x, y)
    decreases NodesOpt(o), 2
  {
    if o.Some? {
      WalkMentions(x, o.value);
    }
  }

  lemma {:induction false} WalkAllMentions(x: ExprPass, l: seq<AST>)
    requires !x.FoldConstants? && IncludeFreeAll(l) && WalkAll(OnExpressions(x), l).Ok?
    ensures forall z ::
      z in MentionsAll(WalkAll(OnExpressions(x), l).value) <==>
        exists y :: y in MentionsAll(l) && z in ReplacementVars(x, y)
    decreases NodesAll(l), 2
  {
    if l != [] {
      WalkMentions(x, l[0]);
      WalkAllMentions(x, l[1..]);
      MentionsSpliced(Walk(OnExpressions(x), l[0]).value, WalkAll(OnExpressions(x), l[1..]).value);
    }
  }

  lemma MentionsFromList(l: seq<AST>)
    ensures Mentions(FromList(l)) == MentionsAll(l)
  {
    if |l| == 1 {
      assert l[1..] == [];
    }
  }

  lemma MentionsSpliced(t: AST, l: seq<AST>)
    ensures MentionsAll(Splice(t) + l) == Mentions(t) + MentionsAll(l)
  {
    MentionsConcat(Splice(t), l);
    if !t.Statements? {
      assert [t][1..] == [];
    }
  }

  /** Resolution fails exactly where the template is unresolvable, and what it returns
      otherwise mentions exactly the variables worked out without it. */
  lemma {:induction false} ResolveFailsExactly(w: World, depth: nat, t: AST)
    ensures Walk(Resolver(w, depth), t).Err? <==> Unresolvable(w, depth, t)
    ensures Walk(Resolver(w, depth), t).Ok? ==>
              Mentions(Walk(Resolver(w, depth), t).value) == MentionsResolved(w, depth, t)
    decreases depth, Nodes(t), 1
  {
    var p := Resolver(w, depth);
    match t
    case Statements(l) =>
      ResolveAllFailsExactly(w, depth, l);
      if WalkAll(p, l).Ok? {
        MentionsFromList(WalkAll(p, l).value);
      }
    case If(_, a, b) => ResolveFailsExactly(w, depth, a); ResolveOptFailsExactly(w, depth, b);
    case For(_, _, _, a, b) => ResolveFailsExactly(w, depth, a); ResolveOptFailsExactly(w, depth, b);
    case Include(name, s, m) =>
      var path := ResolvePath(w.basePath, name);
      if path in w.files && depth > 0 {
        IncludeFailsExactly(w, depth, path, s, m);
      }
    case _ =>
  }

  lemma {:induction false} IncludeFailsExactly(w: World, depth: nat, path: string, s: Option<Expr>, m: seq<Binding>)
    requires path in w.files && depth > 0
    ensures var x, file := Substitution(path, s, m), w.files[path];
            var included := Walk(Resolver(w, depth - 1), file);
            && (included.Err? <==> Unresolvable(w, depth - 1, file))
            && (included.Ok? ==>
                  var r := Walk(OnExpressions(x), included.value);
                  && (r.Err? <==> exists y :: y in MentionsResolved(w, depth - 1, file) && Irreplaceable(x, y))
                  && (r.Ok? ==> forall z :: z in Mentions(r.value) <==>
                        exists y :: y in MentionsResolved(w, depth - 1, file) && z in ReplacementVars(x, y)))
    decreases depth, 0, 0
  {
    var x, file := Substitution(path, s, m), w.files[path];
    ResolveFailsExactly(w, depth - 1, file);
    ResolvedIncludeFree(w, depth - 1, file);
    var included := Walk(Resolver(w, depth - 1), file);
    if included.Ok? {
      SubstitutionFailsExactly(x, included.value);
      if Walk(OnExpressions(x), included.value).Ok? {
        WalkMentions(x, included.value);
      }
    }
  }

  lemma {:induction false} ResolveOptFailsExactly(w: World, depth: nat, o: Option<AST>)
    ensures WalkOpt(Resolver(w, depth), o).Err? <==> UnresolvableOpt(w, depth, o)
    ensures WalkOpt(Resolver(w, depth), o).Ok? ==>
              MentionsOpt(WalkOpt(Resolver(w, depth), o).value) == MentionsResolvedOpt(w, depth, o)
    decreases depth, NodesOpt(o), 2
  {
    if o.Some? {
      ResolveFailsExactly(w, depth, o.value);
    }
  }

  lemma {:induction false} ResolveAllFailsExactly(w: World, depth: nat, l: seq<AST>)
    ensures WalkAll(Resolver(w, depth), l).Err? <==> UnresolvableAll(w, depth, l)
    ensures WalkAll(Resolver(w, depth), l).Ok? ==>
              MentionsAll(WalkAll(Resolver(w, depth), l).value) == MentionsResolvedAll(w, depth, l)
    decreases depth, NodesAll(l), 2
  {
    if l != [] {
      ResolveFailsExactly(w, depth, l[0]);
      ResolveAllFailsExactly(w, depth, l[1..]);
      if WalkAll(Resolver(w, depth), l).Ok? {
        MentionsSpliced(Walk(Resolver(w, depth), l[0]).value, WalkAll(Resolver(w, depth), l[1..]).value);
      }
    }
  }

  // ---------- How deep includes nest ----------

  /** Every file the tree includes has a rank below n. */
  predicate IncludesBelow(w: World, rank: map<string, nat>, t: AST, n: nat) {
    match t
    case Statements(l) => IncludesBelowAll(w, rank, l, n)
    case If(_, a, b) => IncludesBelow(w, rank, a, n) && IncludesBelowOpt(w, rank, b, n)
    case For(_, _, _, a, b) => IncludesBelow(w, rank, a, n) && IncludesBelowOpt(w, rank, b, n)
    case Include(name, _, _) =>
      var path := ResolvePath(w.basePath, name);
      path in w.files ==> path in rank && rank[path] < n
    case _ => true
  }

  predicate IncludesBelowOpt(w: World, rank: map<string, nat>, o: Option<AST>, n: nat) {
    match o
    case None => true
    case Some(t) => IncludesBelow(w, rank, t, n)
  }

  predicate IncludesBelowAll(w: World, rank: map<string, nat>, l: seq<AST>, n: nat) {
    if l == [] then true else IncludesBelow(w, rank, l[0], n) && IncludesBelowAll(w, rank, l[1..], n)
  }

  /** No file includes itself, directly or through others. */
  predicate Acyclic(w: World, rank: map<string, nat>) {
    forall path :: path in w.files && path in rank ==> IncludesBelow(w, rank, w.files[path], rank[path])
  }

  /** A depth above the ranks of the included files is never exhausted, and any two such
      depths resolve a template to the same tree. */
  lemma {:induction false} EnoughDepth(w: World, rank: map<string, nat>, t: AST, n: nat, d: nat, d': nat)
    requires Acyclic(w, rank) && IncludesBelow(w, rank, t, n) && n <= d && n <= d'
    ensures Walk(Resolver(w, d), t) == Walk(Resolver(w, d'), t) != Err(IncludesTooDeep)
    decreases n, Nodes(t), 1
  {
    match t
    case Statements(l) => EnoughDepthAll(w, rank, l, n, d, d');
    case If(_, a, b) => EnoughDepth(w, rank, a, n, d, d'); EnoughDepthOpt(w, rank, b, n, d, d');
    case For(_, _, _, a, b) => EnoughDepth(w, rank, a, n, d, d'); EnoughDepthOpt(w, rank, b, n, d, d');
    case Include(name, s, m) =>
      var path := ResolvePath(w.basePath, name);
      if path in w.files {
        EnoughDepth(w, rank, w.files[path], rank[path], d - 1, d' - 1);
        var r := Walk(Resolver(w, d - 1), w.files[path]);
        if r.Ok? {
          RewritingErrors(Substitution(path, s, m), r.value);
        }
      }
    case _ =>
  }

  lemma {:induction false} EnoughDepthOpt(w: World, rank: map<string, nat>, o: Option<AST>, n: nat, d: nat, d': nat)
    requires Acyclic(w, rank) && IncludesBelowOpt(w, rank, o, n) && n <= d && n <= d'
    ensures WalkOpt(Resolver(w, d), o) == WalkOpt(Resolver(w, d'), o) != Err(IncludesTooDeep)
    decreases n, NodesOpt(o), 2
  {
    if o.Some? {
      EnoughDepth(w, rank, o.value, n, d, d');
    }
  }

  lemma {:induction false} EnoughDepthAll(w: World, rank: map<string, nat>, l: seq<AST>, n: nat, d: nat, d': nat)
    requires Acyclic(w, rank) && IncludesBelowAll(w, rank, l, n) && n <= d && n <= d'
    ensures WalkAll(Resolver(w, d), l) == WalkAll(Resolver(w, d'), l) != Err(IncludesTooDeep)
    decreases n, NodesAll(l), 2
  {
    if l != [] {
      EnoughDepth(w, rank, l[0], n, d, d');
      EnoughDepthAll(w, rank, l[1..], n, d, d');
    }
  }

  /** Rewriting expressions reports its own errors only. */
  lemma {:induction false} RewritingErrors(x: ExprPass, t: AST)
    requires !x.FoldConstants?
    ensures Walk(OnExpressions(x), t) != Err(IncludesTooDeep)
    decreases Nodes(t), 1
  {
    match t
    case Statements(l) => RewritingAllErrors(x, l);
    case Raw(_) =>
    case Print(e) => VisitErrors(x, e);
    case If(c, a, b) => VisitErrors(x, c); RewritingErrors(x, a); RewritingOptErrors(x, b);
    case For(_, _, it, a, b) => VisitErrors(x, it); RewritingErrors(x, a); RewritingOptErrors(x, b);
    case Include(_, s, m) =>
      if s.Some? { VisitErrors(x, s.value); }
      BindingsErrors(x, m);
  }

  lemma {:induction false} RewritingOptErrors(x: ExprPass, o: Option<AST>)
    requires !x.FoldConstants?
    ensures WalkOpt(OnExpressions(x), o) != Err(IncludesTooDeep)
    decreases NodesOpt(o), 2
  {
    if o.Some? {
      RewritingErrors(x, o.value);
    }
  }

  lemma {:induction false} RewritingAllErrors(x: ExprPass, l: seq<AST>)
    requires !x.FoldConstants?
    ensures WalkAll(OnExpressions(x), l) != Err(IncludesTooDeep)
    decreases NodesAll(l), 2
  {
    if l != [] {
      RewritingErrors(x, l[0]);
      RewritingAllErrors(x, l[1..]);
    }
  }

  lemma {:induction false} BindingsErrors(x: ExprPass, m: seq<Binding>)
    requires !x.FoldConstants?
    ensures OnBindings(OnExpressions(x), m) != Err(IncludesTooDeep)
  {
    if m != [] {
      VisitErrors(x, m[0].expr);
      BindingsErrors(x, m[1..]);
    }
  }

  lemma {:induction false} VisitErrors(x: ExprPass, e: Expr)
    requires !x.FoldConstants?
    ensures Visit(x, e) != Err(IncludesTooDeep)
    decreases Size(e), 0
  {
    match e
    case Var(y) =>
      match x {
        case ReplaceVariables(_, m) => if FindBinding(m, y).Some? { CloneIsExact(FindBinding(m, y).value); }
        case PrependScope(s) => CloneIsExact(s);
      }
    case Attr(b, _) => VisitErrors(x, b);
    case Call(_, args) => VisitAllErrors(x, args);
    case Bin(_, l, r) => VisitErrors(x, l); VisitErrors(x, r);
    case Un(_, b) => VisitErrors(x, b);
    case Cmp(_, l, r) => VisitErrors(x, l); VisitErrors(x, r);
    case _ =>
  }

  lemma {:induction false} VisitAllErrors(x: ExprPass, es: seq<Expr>)
    requires !x.FoldConstants?
    ensures VisitAll(x, es) != Err(IncludesTooDeep)
    decreases SizeAll(es), 1, |es|
  {
    if es != [] {
      VisitErrors(x, es[0]);
      VisitAllErrors(x, es[1..]);
    }
  }

  // ---------- Include-free trees need no files ----------

  lemma {:induction false} RenderDepth(w: World, d: nat, d': nat, t: AST, env: Env)
    requires IncludeFree(t)
    ensures Render(w, d, t, env) == Render(w, d', t, env)
    decreases t, 0, 0
  {
    match t
    case Statements(l) => RenderDepthAll(w, d, d', l, env);
    case If(_, a, b) =>
      RenderDepth(w, d, d', a, env);
      if b.Some? { RenderDepth(w, d, d', b.value, env); }
    case For(k, v, it, a, b) =>
      if b.Some? { RenderDepth(w, d, d', b.value, env); }
      var c := Eval(w.host, it, env);
      if c.Some? { RenderDepthLoop(w, d, d', k, v, EntriesOf(c.value), a, env); }
    case _ =>
  }

  lemma {:induction false} RenderDepthAll(w: World, d: nat, d': nat, l: seq<AST>, env: Env)
    requires IncludeFreeAll(l)
    ensures RenderAll(w, d, l, env) == RenderAll(w, d', l, env)
    decreases l, 0, 0
  {
    if l != [] {
      RenderDepth(w, d, d', l[0], env);
      RenderDepthAll(w, d, d', l[1..], env);
    }
  }

  lemma {:induction false} RenderDepthLoop(w: World, d: nat, d': nat, k: Option<string>, v: Option<string>,
                                           entries: seq<Entry>, body: AST, env: Env)
    requires IncludeFree(body)
    ensures RenderLoop(w, d, k, v, entries, body, env) == RenderLoop(w, d', k, v, entries, body, env)
    decreases body, 1, |entries|
  {
    if entries != [] {
      RenderDepth(w, d, d', body, Bind(env, k, v, entries[0]));
      RenderDepthLoop(w, d, d', k, v, entries[1..], body, env);
    }
  }

  // ---------- Where the substitution is not hygienic, or moves an operation ----------

  /** One file `f` below `base`. */
  function OneFile(h: Host, file: AST): World {
    World(h, map["base/f" := file], "base")
  }

  const LIST := Table([Entry(Int(0), Str("a"))])

  lemma BothFound(a: Binding, b: Binding)
    requires a.name != b.name
    ensures FindBinding([a, b], a.name) == Some(a.expr) && FindBinding([a, b], b.name) == Some(b.expr)
  {
    assert [a, b][1..] == [b] && [b][1..] == [];
    assert FindBinding([b], b.name) == Some(b.expr) && FindBinding([b], a.name) == None;
  }

  /** `{% for x in items %}{{ x }}{% endfor %}` included with `using s`: the resolved loop
      prints the attribute x of the scope and not its own variable. */
  lemma LoopVariableIsReplaced(h: Host, env: Env)
    requires env("s") == Some(Table([Entry(Str("items"), LIST)]))
    ensures var w := OneFile(h, For(None, Some("x"), Var("items"), Print(Var("x")), None));
            var t := Include("f", Some(Var("s")), []);
            && Walk(Resolver(w, 1), t).Ok?
            && !ResolvesFaithfully(w, 1, t)
            && Render(w, 1, t, env) == Outcome("a", true)
            && Render(w, 1, Walk(Resolver(w, 1), t).value, env) == Outcome(h.show(Null), true)
  {
    var file := For(None, Some("x"), Var("items"), Print(Var("x")), None);
    var w, t := OneFile(h, file), Include("f", Some(Var("s")), []);
    var r := For(None, Some("x"), Attr(Var("s"), "items"), Print(Attr(Var("s"), "x")), None);
    var scope := env("s").value;
    assert ResolvePath(w.basePath, "f") == "base/f";
    assert Walk(Resolver(w, 0), file) == Ok(file);
    assert Walk(Resolver(w, 1), t) == Ok(r);
    assert "x" in Mentions(file.body) && "x" in Binders(file.key, file.value);
    assert scope.entries[1..] == [];
    assert scope.entries[0].key != Str("x") && Lookup(scope.entries[1..], "x") == Null;
    assert GetAttribute(scope, "items") == LIST && GetAttribute(scope, "x") == Null;
    assert LIST.entries[1..] == [];
    assert "s"[0] != "x"[0];
    var inner := Bind(env, None, Some("x"), LIST.entries[0]);
    assert Eval(h, Var("s"), inner) == env("s");
    assert Eval(h, r.body.expr, inner) == Some(Null);
    assert Render(w, 1, r.body, inner) == Outcome(h.show(Null), true);
  }

  /** The same loop included `with x, items`: a variable that is replaced by itself stays the
      loop's. */
  lemma LoopVariableIsKept(h: Host)
    ensures var file := For(None, Some("x"), Var("items"), Print(Var("x")), None);
            var w := OneFile(h, file);
            var t := Include("f", None, [Binding("x", Var("x")), Binding("items", Var("items"))]);
            Walk(Resolver(w, 1), t) == Ok(file) && ResolvesFaithfully(w, 1, t)
  {
    var file := For(None, Some("x"), Var("items"), Print(Var("x")), None);
    var m := [Binding("x", Var("x")), Binding("items", Var("items"))];
    var w, t := OneFile(h, file), Include("f", None, m);
    assert ResolvePath(w.basePath, "f") == "base/f";
    BothFound(m[0], m[1]);
    assert Walk(Resolver(w, 0), file) == Ok(file);
    assert Walk(Resolver(w, 1), t) == Ok(file);
    VariantsKeepOperationsIn(h, Substitution("base/f", None, m), file);
  }

  /** The same loop around `{{ y }}`, included with `y = x, items`: the loop captures the
      caller's x. */
  lemma LoopCapturesReplacement(h: Host, env: Env, v: Value)
    requires env("items") == Some(LIST) && env("x") == Some(v)
    ensures var w := OneFile(h, For(None, Some("x"), Var("items"), Print(Var("y")), None));
            var t := Include("f", None, [Binding("y", Var("x")), Binding("items", Var("items"))]);
            && Walk(Resolver(w, 1), t).Ok?
            && !ResolvesFaithfully(w, 1, t)
            && Render(w, 1, t, env) == Outcome(Show(h, v), true)
            && Render(w, 1, Walk(Resolver(w, 1), t).value, env) == Outcome("a", true)
  {
    var file := For(None, Some("x"), Var("items"), Print(Var("y")), None);
    var m := [Binding("y", Var("x")), Binding("items", Var("items"))];
    var w, t := OneFile(h, file), Include("f", None, m);
    var r := For(None, Some("x"), Var("items"), Print(Var("x")), None);
    assert ResolvePath(w.basePath, "f") == "base/f";
    BothFound(m[0], m[1]);
    assert Walk(Resolver(w, 0), file) == Ok(file);
    assert Walk(Resolver(w, 1), t) == Ok(r);
    assert "y" in Mentions(file.body) && "x" in ReplacementVars(Substitution("base/f", None, m), "y");
    assert LIST.entries[1..] == [];
  }

  lemma DivisionKept(h: Host, x: ExprPass, e': Expr, q: Value)
    requires h.binary(Division, Int(3), Int(4)) == Some(q)
    requires e' == Bin(Division, IntLit(3), IntLit(4)) && Visit(x, Bin(Division, Var("a"), Var("b"))) == Ok(e')
    ensures KeepsOperations(h, x, Bin(Division, Var("a"), Var("b"))) <==> q == Int(0)
  {
    assert NativeBinary(h.fpu, Division, Int(3), Int(4)) == Some(Int(0));
    forall env: Env
      ensures LibraryAgrees(h, e', env) <==> q == Int(0)
    {
      assert Eval(h, IntLit(3), env) == Some(Int(3)) && Eval(h, IntLit(4), env) == Some(Int(4));
    }
    hide Visit, LibraryAgrees;
    var none: Env := (y: string) => None;
    assert LibraryAgrees(h, e', none) <==> q == Int(0);
  }

  lemma DivisionResolves(h: Host)
    ensures var w := OneFile(h, Print(Bin(Division, Var("a"), Var("b"))));
            var t := Include("f", None, [Binding("a", IntLit(3)), Binding("b", IntLit(4))]);
            && Walk(Resolver(w, 1), t) == Ok(Print(Bin(Division, IntLit(3), IntLit(4))))
            && Walk(Resolver(w, 0), w.files["base/f"]) == Ok(Print(Bin(Division, Var("a"), Var("b"))))
  {
    var file := Print(Bin(Division, Var("a"), Var("b")));
    var m := [Binding("a", IntLit(3)), Binding("b", IntLit(4))];
    var w, t := OneFile(h, file), Include("f", None, m);
    assert ResolvePath(w.basePath, "f") == "base/f";
    BothFound(m[0], m[1]);
    assert Walk(Resolver(w, 0), file) == Ok(file);
  }

  lemma DivisionRenders(h: Host, env: Env, q: Value)
    requires h.binary(Division, Int(3), Int(4)) == Some(q)
    ensures var w := OneFile(h, Print(Bin(Division, Var("a"), Var("b"))));
            var t := Include("f", None, [Binding("a", IntLit(3)), Binding("b", IntLit(4))]);
            && Render(w, 1, t, env) == Outcome(Show(h, q), true)
            && Render(w, 1, Print(Bin(Division, IntLit(3), IntLit(4))), env) == Outcome(h.show(Int(0)), true)
  {
    var file := Print(Bin(Division, Var("a"), Var("b")));
    var m := [Binding("a", IntLit(3)), Binding("b", IntLit(4))];
    assert ResolvePath(OneFile(h, file).basePath, "f") == "base/f";
    BothFound(m[0], m[1]);
    assert NativeBinary(h.fpu, Division, Int(3), Int(4)) == Some(Int(0));
    assert Eval(h, Bin(Division, IntLit(3), IntLit(4)), env) == Some(Int(0));
    assert Eval(h, file.expr, IncludeEnv(h, None, m, env)) == Some(q);
  }

  lemma DivisionFaithful(h: Host, q: Value)
    requires h.binary(Division, Int(3), Int(4)) == Some(q)
    ensures var w := OneFile(h, Print(Bin(Division, Var("a"), Var("b"))));
            var t := Include("f", None, [Binding("a", IntLit(3)), Binding("b", IntLit(4))]);
            ResolvesFaithfully(w, 1, t) <==> q == Int(0)
  {
    hide KeepsOperations, Walk, FindBinding;
    var file := Print(Bin(Division, Var("a"), Var("b")));
    var m := [Binding("a", IntLit(3)), Binding("b", IntLit(4))];
    var w := OneFile(h, file);
    DivisionResolves(h);
    assert ResolvePath(w.basePath, "f") == "base/f";
    BothFound(m[0], m[1]);
    var x := Substitution("base/f", None, m);
    DivisionKept(h, x, Bin(Division, IntLit(3), IntLit(4)), q);
    assert Expressions(file) == {file.expr};
    assert KeepsOperationsIn(h, x, file) <==> KeepsOperations(h, x, file.expr);
  }

  /** `{{ a / b }}` included with `a = 3, b = 4`: the library divides two variants, the
      resolved tree divides two integers.  The include is resolved faithfully exactly when the
      library truncates the quotient as the compiler does. */
  lemma LiteralArgumentsMoveDivision(h: Host, env: Env, q: Value)
    requires h.binary(Division, Int(3), Int(4)) == Some(q)
    ensures var w := OneFile(h, Print(Bin(Division, Var("a"), Var("b"))));
            var t := Include("f", None, [Binding("a", IntLit(3)), Binding("b", IntLit(4))]);
            && Walk(Resolver(w, 1), t).Ok?
            && (ResolvesFaithfully(w, 1, t) <==> q == Int(0))
            && Render(w, 1, t, env) == Outcome(Show(h, q), true)
            && Render(w, 1, Walk(Resolver(w, 1), t).value, env) == Outcome(h.show(Int(0)), true)
  {
    hide Walk, Render, ResolvesFaithfully;
    DivisionResolves(h);
    DivisionFaithful(h, q);
    DivisionRenders(h, env, q);
  }
}
