/** Which templates mean to a JavaScript engine what they mean to the reference interpreter
    with the engine's own operations, and templates that do not. */
module Portability {
  import opened Results
  import opened Doubles
  import opened Ast
  import opened Semantics
  import opened Folding
  import opened Engines
  import opened Javascript
  import opened JavascriptSource

  /** What the ECMAScript standard says of an engine's operations: numbers are doubles, so it
      computes with them as the platform does and compares them as C++ does, unless both are
      integers; the logical operations go by truth; and small integers are read exactly.
      Nothing is said of quotients of integers, of variants, or of helpers. */
  ghost predicate EcmaScript(j: Engine) {
    && (forall op, a, b :: IsNumber(a) && IsNumber(b) && (a.Dbl? || b.Dbl?) ==>
          j.lib.binary(op, a, b) == NativeBinary(j.lib.fpu, op, a, b))
    && (forall op: UnaryOp, a: Value :: !op.BooleanNegation? && a.Dbl? ==> j.lib.unary(op, a) == NativeUnary(op, a))
    && (forall a :: j.lib.unary(BooleanNegation, a) == Some(Bool(!IsTrue(j.lib, a))))
    && (forall op, a: Value, b: Value :: !IsLogical(op) && !(a.Int? && b.Int?) && NativeCompare(op, a, b).Some? ==>
          j.lib.compare(op, a, b) == NativeCompare(op, a, b))
    && (forall op, a, b :: IsLogical(op) ==>
          j.lib.compare(op, a, b) == Some(Combined(op, IsTrue(j.lib, a), IsTrue(j.lib, b))))
    && (forall i: int :: Abs(i) <= TWO_TO_53 ==> j.nearest(i as real) == Finite(i as real))
  }

  // ---------- Where `&&` and `||` may stand ----------

  /** The expression is a boolean whenever it has a value. */
  predicate YieldsBool(e: Expr) {
    match e
    case BoolLit(_) => true
    case Un(op, _) => op.BooleanNegation?
    case Cmp(op, l, r) => !IsLogical(op) || (YieldsBool(l) && YieldsBool(r))
    case _ => false
  }

  /** As a value, `&&` and `||` only combine booleans: on anything else JavaScript returns an
      operand.  As a condition they may combine anything.  Literals are read as they are. */
  predicate PlainValue(j: Engine, e: Expr)
    decreases e, 0
  {
    match e
    case DoubleLit(d) => Read(j, Dbl(d)) == Some(Dbl(d))
    case IntLit(i) => Read(j, Int(i)) == Some(Int(i))
    case Attr(b, _) => PlainValue(j, b)
    case Call(_, args) => AllPlain(j, args)
    case Bin(_, l, r) => PlainValue(j, l) && PlainValue(j, r)
    case Un(op, s) => if op.BooleanNegation? then PlainTest(j, s) else PlainValue(j, s)
    case Cmp(op, l, r) => PlainValue(j, l) && PlainValue(j, r) && (IsLogical(op) ==> YieldsBool(l) && YieldsBool(r))
    case _ => true
  }

  predicate AllPlain(j: Engine, es: seq<Expr>)
    decreases es, 0
  {
    if es == [] then true else PlainValue(j, es[0]) && AllPlain(j, es[1..])
  }

  predicate PlainTest(j: Engine, e: Expr)
    decreases e, 1
  {
    if e.Cmp? && IsLogical(e.cop) then PlainTest(j, e.left) && PlainTest(j, e.right) else PlainValue(j, e)
  }

  predicate PlainTree(j: Engine, t: AST) {
    match t
    case Statements(l) => PlainTrees(j, l)
    case Raw(_) => true
    case Print(e) => PlainValue(j, e)
    case If(c, a, b) => PlainTest(j, c) && PlainTree(j, a) && PlainOpt(j, b)
    case For(_, _, it, a, b) => PlainValue(j, it) && PlainTree(j, a) && PlainOpt(j, b)
    case Include(_, _, _) => false
  }

  predicate PlainOpt(j: Engine, o: Option<AST>) {
    match o
    case None => true
    case Some(t) => PlainTree(j, t)
  }

  predicate PlainTrees(j: Engine, l: seq<AST>) {
    if l == [] then true else PlainTree(j, l[0]) && PlainTrees(j, l[1..])
  }

  // ---------- What remains to be asked of the data ----------

  /** Attributes are taken of values other than null, and are own properties or absent; and
      an operand that `&&` or `||` skips has a value. */
  predicate Fetches(j: Engine, e: Expr, env: Env) {
    match e
    case Attr(b, n) =>
      && Fetches(j, b, env)
      && var v := Eval(j.lib, b, env);
         (v.Some? ==>
            && !v.value.Null?
            && (HasAttribute(v.value, n) || j.inherited(v.value, n).Null?))
    case Call(_, args) => AllFetch(j, args, env)
    case Bin(_, l, r) => Fetches(j, l, env) && Fetches(j, r, env)
    case Un(_, s) => Fetches(j, s, env)
    case Cmp(op, l, r) =>
      && Fetches(j, l, env)
      && var v := Eval(j.lib, l, env);
         if !IsLogical(op) then Fetches(j, r, env)
         else v.Some? ==> if Skips(j.lib, op, v.value) then Eval(j.lib, r, env).Some? else Fetches(j, r, env)
    case _ => true
  }

  predicate AllFetch(j: Engine, es: seq<Expr>, env: Env) {
    if es == [] then true else Fetches(j, es[0], env) && AllFetch(j, es[1..], env)
  }

  /** The same of an expression in its place; what is iterated over has its own properties in
      order, and none when it is not an object. */
  function Fetching(j: Engine): (Role, Expr, Env) -> bool {
    (role: Role, e: Expr, env: Env) =>
      && Fetches(j, e, env)
      && var v := Eval(j.lib, e, env);
         (role.Iterated? && v.Some? ==> Enumerate(j, v.value) == EntriesOf(v.value))
  }

  // ---------- Plain templates are portable ----------

  lemma {:induction false} LookupAbsent(entries: seq<Entry>, name: string)
    requires !HasOwn(entries, name)
    ensures Lookup(entries, name) == Null
  {
    if entries != [] {
      assert entries[0].key != Str(name);
      assert forall i :: 0 <= i < |entries| - 1 ==> entries[1..][i] == entries[i + 1];
      LookupAbsent(entries[1..], name);
    }
  }

  lemma {:induction false} BoolValue(j: Engine, e: Expr, env: Env)
    requires EcmaScript(j) && YieldsBool(e) && Eval(j.lib, e, env).Some?
    ensures Eval(j.lib, e, env).value.Bool?
  {
  }

  /** A folded, well-typed expression that is no variant has a value of its type. */
  lemma {:induction false} NativeValue(j: Engine, e: Expr, env: Env)
    requires EcmaScript(j) && NativelyTyped(e) && Fold(j.lib.fpu, e) == Ok(e) && !IsVariant(e)
    ensures var v := Eval(j.lib, e, env);
            v.Some? ==>
              match TypeOf(e)
              case IntegerType => e.IntLit? && v.value == Int(e.i)
              case DoubleType => v.value.Dbl?
              case BooleanType => v.value.Bool?
              case StringType => e.StrLit? && v.value == Str(e.s)
              case VariantType => false
    decreases e
  {
    if TypeOf(e).IntegerType? {
      IntegersFoldToLiterals(j.lib.fpu, e);
    }
    match e
    case Bin(_, l, r) => NativeValue(j, l, env); NativeValue(j, r, env);
    case Un(_, s) => if !s.Cmp? { NativeValue(j, s, env); }
    case _ =>
  }

  lemma {:induction false} PlainAgrees(j: Engine, e: Expr, env: Env)
    requires EcmaScript(j) && NativelyTyped(e) && Fold(j.lib.fpu, e) == Ok(e) && Fetches(j, e, env)
    ensures PlainValue(j, e) ==> ValueAgrees(j, j.lib, e, env)
    ensures PlainTest(j, e) ==> TestAgrees(j, j.lib, e, env)
    decreases e
  {
    match e
    case Attr(b, n) =>
      PlainAgrees(j, b, env);
      AttributeAgrees(j, b, n, env);
    case Call(_, args) =>
      if AllPlain(j, args) {
        AllPlainAgree(j, args, env);
      }
    case Bin(op, l, r) =>
      PlainAgrees(j, l, env);
      PlainAgrees(j, r, env);
      BinaryAgrees(j, op, l, r, env);
    case Un(op, s) =>
      PlainAgrees(j, s, env);
      UnaryAgrees(j, op, s, env);
    case Cmp(op, l, r) =>
      PlainAgrees(j, l, env);
      if Fetches(j, r, env) {
        PlainAgrees(j, r, env);
      }
      if IsLogical(op) {
        LogicalIsPlain(j, op, l, r, env);
      } else {
        ComparisonAgrees(j, op, l, r, env);
      }
    case _ =>
  }

  lemma {:induction false} AllPlainAgree(j: Engine, es: seq<Expr>, env: Env)
    requires EcmaScript(j) && NativelyTypedAll(es) && FoldAll(j.lib.fpu, es) == Ok(es) && AllFetch(j, es, env)
    requires AllPlain(j, es)
    ensures AllAgree(j, j.lib, es, env)
    decreases es
  {
    if es != [] {
      PlainAgrees(j, es[0], env);
      AllPlainAgree(j, es[1..], env);
    }
  }

  lemma AttributeAgrees(j: Engine, b: Expr, n: string, env: Env)
    requires Fetches(j, Attr(b, n), env)
    ensures var v := Eval(j.lib, b, env); v.Some? ==> Property(j, v.value, n) == Some(GetAttribute(v.value, n))
  {
    var v := Eval(j.lib, b, env);
    if v.Some? && v.value.Table? && !HasOwn(v.value.entries, n) {
      LookupAbsent(v.value.entries, n);
    }
  }

  /** After folding an operation that is not left to the library has a double among its
      operands. */
  lemma BinaryAgrees(j: Engine, op: BinaryOp, l: Expr, r: Expr, env: Env)
    requires EcmaScript(j) && NativelyTyped(Bin(op, l, r)) && Fold(j.lib.fpu, Bin(op, l, r)) == Ok(Bin(op, l, r))
    ensures var h, a, b := j.lib, Eval(j.lib, l, env), Eval(j.lib, r, env);
            a.Some? && b.Some? ==>
              h.binary(op, a.value, b.value) == BinaryValue(h, !IsVariant(Bin(op, l, r)), op, a.value, b.value)
  {
    if !IsVariant(l) && !IsVariant(r) {
      NativeValue(j, l, env);
      NativeValue(j, r, env);
    }
  }

  lemma UnaryAgrees(j: Engine, op: UnaryOp, s: Expr, env: Env)
    requires EcmaScript(j) && NativelyTyped(Un(op, s)) && Fold(j.lib.fpu, Un(op, s)) == Ok(Un(op, s))
    ensures var h, a := j.lib, Eval(j.lib, s, env);
            a.Some? ==>
              && h.unary(op, a.value) == UnaryValue(h, !IsVariant(s), op, a.value)
              && (op.BooleanNegation? ==> UnaryValue(h, !IsVariant(s), op, a.value) == Some(Bool(!IsTrue(h, a.value))))
  {
    if !IsVariant(s) {
      NativeValue(j, s, env);
    }
  }

  lemma ComparisonAgrees(j: Engine, op: ComparisonOp, l: Expr, r: Expr, env: Env)
    requires EcmaScript(j) && !IsLogical(op)
    requires NativelyTyped(Cmp(op, l, r)) && Fold(j.lib.fpu, Cmp(op, l, r)) == Ok(Cmp(op, l, r))
    ensures var h, a, b := j.lib, Eval(j.lib, l, env), Eval(j.lib, r, env);
            a.Some? && b.Some? ==>
              h.compare(op, a.value, b.value)
              == CompareValue(h, !IsVariant(l) && !IsVariant(r), op, a.value, b.value)
  {
    if !IsVariant(l) && !IsVariant(r) {
      NativeValue(j, l, env);
      NativeValue(j, r, env);
    }
  }

  lemma LogicalIsPlain(j: Engine, op: ComparisonOp, l: Expr, r: Expr, env: Env)
    requires EcmaScript(j) && IsLogical(op) && NativelyTyped(Cmp(op, l, r)) && Fetches(j, Cmp(op, l, r), env)
    requires PlainValue(j, l) ==> ValueAgrees(j, j.lib, l, env)
    requires PlainTest(j, l) ==> TestAgrees(j, j.lib, l, env)
    requires Fetches(j, r, env) && PlainValue(j, r) ==> ValueAgrees(j, j.lib, r, env)
    requires Fetches(j, r, env) && PlainTest(j, r) ==> TestAgrees(j, j.lib, r, env)
    ensures PlainValue(j, Cmp(op, l, r)) ==> ValueAgrees(j, j.lib, Cmp(op, l, r), env)
    ensures PlainTest(j, Cmp(op, l, r)) ==> LogicalAgrees(j, j.lib, op, l, r, env)
  {
    var h, a, b := j.lib, Eval(j.lib, l, env), Eval(j.lib, r, env);
    PlainIsTest(j, l);
    PlainIsTest(j, r);
    if YieldsBool(l) && a.Some? { BoolValue(j, l, env); }
    if YieldsBool(r) && b.Some? { BoolValue(j, r, env); }
    if a.Some? && b.Some? {
      LogicalValue(j, !IsVariant(l) && !IsVariant(r), op, a.value, b.value);
    }
    hide Fold, NativeCompare, CompareValue;
  }

  lemma LogicalValue(j: Engine, native: bool, op: ComparisonOp, a: Value, b: Value)
    requires EcmaScript(j) && IsLogical(op)
    ensures CompareValue(j.lib, native, op, a, b) == Some(Combined(op, IsTrue(j.lib, a), IsTrue(j.lib, b)))
  {
  }

  lemma {:induction false} PlainIsTest(j: Engine, e: Expr)
    ensures PlainValue(j, e) ==> PlainTest(j, e)
    decreases e
  {
    if e.Cmp? && IsLogical(e.cop) {
      PlainIsTest(j, e.left);
      PlainIsTest(j, e.right);
    }
  }

  /** In a tree whose expressions are folded and well typed, `&&` and `||` stand where they
      may, and the data is such that attributes can be fetched: the engine makes of every
      expression what the interpreter does. */
  lemma {:induction false} PlainThroughout(j: Engine, w: World, t: AST, env: Env)
    requires w.host == j.lib && EcmaScript(j) && PlainTree(j, t) && Throughout(w, Fetching(j), t, env)
    requires forall e :: e in Expressions(t) ==> NativelyTyped(e) && Fold(j.lib.fpu, e) == Ok(e)
    ensures Throughout(w, Agreement(j, w.host), t, env)
    decreases t, 1, 0
  {
    match t
    case Statements(l) => PlainThroughoutAll(j, w, l, env);
    case Raw(_) =>
    case Print(e) => PlainAgrees(j, e, env);
    case If(c, a, b) =>
      PlainAgrees(j, c, env);
      var v := Eval(w.host, c, env);
      if v.Some? {
        if IsTrue(w.host, v.value) { PlainThroughout(j, w, a, env); } else { PlainThroughoutOpt(j, w, b, env); }
      }
    case For(k, v, it, a, b) =>
      PlainAgrees(j, it, env);
      var c := Eval(w.host, it, env);
      if c.Some? {
        if EntriesOf(c.value) == [] {
          PlainThroughoutOpt(j, w, b, env);
        } else {
          PlainThroughoutLoop(j, w, k, v, EntriesOf(c.value), a, env);
        }
      }
  }

  lemma {:induction false} PlainThroughoutOpt(j: Engine, w: World, o: Option<AST>, env: Env)
    requires w.host == j.lib && EcmaScript(j) && PlainOpt(j, o) && ThroughoutOpt(w, Fetching(j), o, env)
    requires forall e :: e in ExpressionsOpt(o) ==> NativelyTyped(e) && Fold(j.lib.fpu, e) == Ok(e)
    ensures ThroughoutOpt(w, Agreement(j, w.host), o, env)
    decreases o, 0, 0
  {
    if o.Some? {
      PlainThroughout(j, w, o.value, env);
    }
  }

  lemma {:induction false} PlainThroughoutAll(j: Engine, w: World, l: seq<AST>, env: Env)
    requires w.host == j.lib && EcmaScript(j) && PlainTrees(j, l) && ThroughoutAll(w, Fetching(j), l, env)
    requires forall e :: e in ExpressionsAll(l) ==> NativelyTyped(e) && Fold(j.lib.fpu, e) == Ok(e)
    ensures ThroughoutAll(w, Agreement(j, w.host), l, env)
    decreases l, 0, 0
  {
    if l != [] {
      PlainThroughout(j, w, l[0], env);
      if Render(w, 0, l[0], env).ok {
        PlainThroughoutAll(j, w, l[1..], env);
      }
    }
  }

  lemma {:induction false} PlainThroughoutLoop(j: Engine, w: World, k: Option<string>, v: Option<string>,
                                               entries: seq<Entry>, body: AST, env: Env)
    requires w.host == j.lib && EcmaScript(j) && PlainTree(j, body)
    requires ThroughoutLoop(w, Fetching(j), k, v, entries, body, env)
    requires forall e :: e in Expressions(body) ==> NativelyTyped(e) && Fold(j.lib.fpu, e) == Ok(e)
    ensures ThroughoutLoop(w, Agreement(j, w.host), k, v, entries, body, env)
    decreases body, 2, |entries|
  {
    if entries != [] {
      var inner := Bind(env, k, v, entries[0]);
      PlainThroughout(j, w, body, inner);
      if Render(w, 0, body, inner).ok {
        PlainThroughoutLoop(j, w, k, v, entries[1..], body, env);
      }
    }
  }

  // ---------- Templates that are not portable ----------

  /** `{{ a.b }}` where a is absent: JavaScript throws, the run-time library goes on. */
  lemma NullBaseThrows(j: Engine, w: World, data: Env)
    requires data("a") == Some(Null)
    ensures var t := Print(Attr(Var("a"), "b"));
            && RunJavascript(j, t, data) == FAILED
            && Render(w, 0, t, data) == Outcome(Show(w.host, Null), true)
            && !Throughout(w, Agreement(j, w.host), t, data)
  {
    hide RunJavascript;
    var e := Attr(Var("a"), "b");
    RunsTheTree(j, Print(e), data);
    ExecOne(j, data, Append(LowerExpr(e, map[])), map[]);
    assert JEval(j, data, Data("a"), map[]) == Some(Null);
    assert Eval(w.host, Var("a"), data) == Some(Null);
  }

  /** `{% if a || f(1) %}x{% endif %}`. */
  const SKIPPING: AST := If(Cmp(Or, Var("a"), Call("f", [IntLit(1)])), Raw("x"), None)

  /** `{% if c %}text{% endif %}` where c is v. */
  lemma TestRuns(j: Engine, data: Env, c: Expr, text: string, v: Value)
    requires JEval(j, data, LowerExpr(c, map[]), map[]) == Some(v)
    ensures var t := If(c, Raw(text), None);
            && IncludeFree(t)
            && RunJavascript(j, t, data) == if IsTrue(j.lib, v) then Outcome(text, true) else NOTHING
  {
    var t := If(c, Raw(text), None);
    assert IncludeFreeOpt(None);
    hide IsTrue, LowerExpr, RunJavascript;
    RunsTheTree(j, t, data);
    var body := [Append(Const(Str(text)))];
    assert Lower(t, map[], 0).stmts == [JIf(LowerExpr(c, map[]), body, NoElse)];
    ExecOne(j, data, JIf(LowerExpr(c, map[]), body, NoElse), map[]);
    ExecOne(j, data, body[0], map[]);
  }

  lemma SkippingRenders(w: World, data: Env)
    requires w.host.call("f", [Int(1)]) == None
    ensures Render(w, 0, SKIPPING, data) == FAILED
  {
    assert [IntLit(1)][1..] == [] && EvalAll(w.host, [], data) == Some([]) && [Int(1)] + [] == [Int(1)];
    assert EvalAll(w.host, [IntLit(1)], data) == Some([Int(1)]);
    assert Eval(w.host, SKIPPING.cond.right, data) == None;
  }

  /** Where a is true and f fails on 1, JavaScript does not call f, and the compiled function
      does and returns. */
  lemma SkippedCallFails(j: Engine, w: World, data: Env, v: Value)
    requires data("a") == Some(v) && IsTrue(j.lib, v) && w.host.call("f", [Int(1)]) == None
    ensures RunJavascript(j, SKIPPING, data) == Outcome("x", true)
    ensures Render(w, 0, SKIPPING, data) == FAILED
    ensures !Throughout(w, Agreement(j, w.host), SKIPPING, data)
  {
    SkippingRenders(w, data);
    assert JEval(j, data, Data("a"), map[]) == Some(v);
    assert JEval(j, data, LowerExpr(SKIPPING.cond, map[]), map[]) == Some(v);
    hide Render, JEval, Throughout;
    TestRuns(j, data, SKIPPING.cond, "x", v);
    if Throughout(w, Agreement(j, w.host), SKIPPING, data) {
      JavascriptRenders(j, w, data, SKIPPING);
      RunsTheTree(j, SKIPPING, data);
      assert false;
    }
  }

  /** `{{ a || b }}` where a is the string x: JavaScript prints x, the run-time library what it
      prints for true. */
  lemma OperandIsPrinted(j: Engine, w: World, data: Env)
    requires data("a") == Some(Str("x")) && IsTrue(j.lib, Str("x")) && data("b").Some?
    requires w.host.compare(Or, Str("x"), data("b").value) == Some(true)
    ensures var t := Print(Cmp(Or, Var("a"), Var("b")));
            && RunJavascript(j, t, data) == Outcome("x", true)
            && Render(w, 0, t, data) == Outcome(w.host.show(Bool(true)), true)
            && !PlainTree(j, t)
  {
    hide RunJavascript;
    var e := Cmp(Or, Var("a"), Var("b"));
    RunsTheTree(j, Print(e), data);
    ExecOne(j, data, Append(LowerExpr(e, map[])), map[]);
    assert JEval(j, data, Data("a"), map[]) == Some(Str("x"));
    assert Eval(w.host, Var("a"), data) == Some(Str("x")) && Eval(w.host, Var("b"), data) == data("b");
    assert Eval(w.host, e, data) == Some(Bool(true));
  }

  /** `{% if x == d %}y{% endif %}`. */
  function LiteralTest(v: real): (t: AST)
    ensures IncludeFree(t)
  {
    assert IncludeFreeOpt(None);
    If(Cmp(Equal, Var("x"), DoubleLit(Finite(v))), Raw("y"), None)
  }

  /** What the engine makes of the comparison with d. */
  lemma LiteralCompares(j: Engine, data: Env, v: real)
    requires EcmaScript(j) && data("x") == Some(Dbl(Finite(v)))
    ensures JEval(j, data, LowerExpr(Cmp(Equal, Var("x"), DoubleLit(Finite(v))), map[]), map[])
            == Some(Bool(Read(j, Dbl(Finite(v))) == Some(Dbl(Finite(v)))))
  {
    var x, y := Dbl(Finite(v)), Read(j, Dbl(Finite(v))).value;
    ZeroIsRead(j);
    assert CompareDoubles(Equal, Finite(v), y.d) <==> Finite(v) == y.d;
    assert JEval(j, data, Data("x"), map[]) == Some(x) && JEval(j, data, Const(x), map[]) == Some(y);
  }

  lemma LiteralTestRenders(w: World, data: Env, v: real)
    requires data("x") == Some(Dbl(Finite(v)))
    requires w.host.compare(Equal, Dbl(Finite(v)), Dbl(Finite(v))) == Some(true)
    ensures Render(w, 0, LiteralTest(v), data) == Outcome("y", true)
  {
    var c := LiteralTest(v).cond;
    assert Eval(w.host, Var("x"), data) == Some(Dbl(Finite(v))) && Eval(w.host, c, data) == Some(Bool(true));
  }

  /** `{% if x == d %}y{% endif %}`, where x is d: the JavaScript prints y if and only if six
      decimals are enough for d. */
  lemma LiteralIsRounded(j: Engine, w: World, data: Env, v: real)
    requires EcmaScript(j) && data("x") == Some(Dbl(Finite(v)))
    requires w.host.compare(Equal, Dbl(Finite(v)), Dbl(Finite(v))) == Some(true)
    ensures var t := LiteralTest(v);
            && RunJavascript(j, t, data)
               == (if Read(j, Dbl(Finite(v))) == Some(Dbl(Finite(v))) then Outcome("y", true) else NOTHING)
            && Render(w, 0, t, data) == Outcome("y", true)
  {
    var x := Dbl(Finite(v));
    LiteralTestRenders(w, data, v);
    LiteralCompares(j, data, v);
    hide Read, EcmaScript, Render, RunJavascript;
    TestRuns(j, data, LiteralTest(v).cond, "y", Bool(Read(j, x) == Some(x)));
  }

  lemma ZeroIsRead(j: Engine)
    requires EcmaScript(j)
    ensures j.nearest(0.0) == Finite(0.0) && SixDecimals(0.0) == 0.0
    ensures Read(j, Dbl(Finite(0.0))) == Some(Dbl(Finite(0.0)))
  {
    assert Abs(0) <= TWO_TO_53 && j.nearest(0 as real) == Finite(0.0);
    assert 0.0.Floor == 0;
    assert Nearest(0.0) == 0;
  }

  /** They are not enough for 0.0000001. */
  lemma TinyLiteral(j: Engine)
    requires EcmaScript(j)
    ensures Read(j, Dbl(Finite(0.0000001))) == Some(Dbl(Finite(0.0)))
  {
    ZeroIsRead(j);
    assert 0.0000001 * 1000000.0 == 0.1;
    assert 0.1.Floor == 0 && Nearest(0.1) == 0;
  }
}
