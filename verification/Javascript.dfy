/** Lowering to JavaScript: the statement tree the visitor emits, what that tree does when it
    runs, and the proof that it renders the template. */
module Javascript {
  import opened Results
  import opened Ast
  import opened Semantics
  import opened Engines

  // ---------- The trees ----------

  /** The generated identifiers: `iterable_3`, `is_empty_3`, `key_3`, `value_3`. */
  datatype Id = IterableId(n: nat) | IsEmptyId(n: nat) | KeyId(n: nat) | ValueId(n: nat)

  datatype JExpr =
    | Local(id: Id)
    | Data(name: string)
    | Member(base: JExpr, name: string)
    | Helper(name: string, args: seq<JExpr>)
    | Const(v: Value)
    | JBin(bop: BinaryOp, left: JExpr, right: JExpr)
    | JUn(uop: UnaryOp, sub: JExpr)
    | JCmp(cop: ComparisonOp, left: JExpr, right: JExpr)

  datatype JStmt =
    | Append(e: JExpr)
    | DeclareIterable(id: Id, e: JExpr)
    | DeclareFlag(id: Id)
    | JIf(cond: JExpr, body: seq<JStmt>, els: JElse)
    | ForIn(key: Id, iterable: Id, value: Option<Id>, body: seq<JStmt>, flag: Option<Id>)
    | IfFlag(id: Id, body: seq<JStmt>)

  datatype JElse = NoElse | ElseIf(cond: JExpr, body: seq<JStmt>, els: JElse) | Else(body: seq<JStmt>)

  // ---------- Lowering ----------

  /** Which local variable holds a loop variable at the moment. */
  type Shadow = map<string, Id>

  function LowerExpr(e: Expr, shadow: Shadow): JExpr {
    match e
    case Var(x) => if x in shadow then Local(shadow[x]) else Data(x)
    case Attr(b, n) => Member(LowerExpr(b, shadow), n)
    case Call(m, args) => Helper(m, LowerExprs(args, shadow))
    case DoubleLit(d) => Const(Dbl(d))
    case IntLit(i) => Const(Int(i))
    case BoolLit(b) => Const(Bool(b))
    case StrLit(s) => Const(Str(s))
    case Bin(op, l, r) => JBin(op, LowerExpr(l, shadow), LowerExpr(r, shadow))
    case Un(op, s) => JUn(op, LowerExpr(s, shadow))
    case Cmp(op, l, r) => JCmp(op, LowerExpr(l, shadow), LowerExpr(r, shadow))
  }

  function LowerExprs(es: seq<Expr>, shadow: Shadow): seq<JExpr> {
    if es == [] then [] else [LowerExpr(es[0], shadow)] + LowerExprs(es[1..], shadow)
  }

  /** The loop variables of loop n; the value is entered last. */
  function LoopShadow(shadow: Shadow, key: Option<string>, value: Option<string>, n: nat): Shadow {
    var s := if key.Some? then shadow[key.value := KeyId(n)] else shadow;
    if value.Some? then s[value.value := ValueId(n)] else s
  }

  /** Statements, and the loop counter after them. */
  datatype Js = Js(stmts: seq<JStmt>, counter: nat)
  datatype JsOpt = JsOpt(body: Option<seq<JStmt>>, counter: nat)
  datatype JsElse = JsElse(els: JElse, counter: nat)

  function Lower(t: AST, shadow: Shadow, n: nat): (r: Js)
    requires IncludeFree(t)
    ensures r.counter >= n
    decreases t, 0
  {
    match t
    case Statements(l) => LowerAll(l, shadow, n)
    case Raw(text) => Js([Append(Const(Str(text)))], n)
    case Print(e) => Js([Append(LowerExpr(e, shadow))], n)
    case If(c, a, b) =>
      var a' := Lower(a, shadow, n);
      var b' := LowerElse(b, shadow, a'.counter);
      Js([JIf(LowerExpr(c, shadow), a'.stmts, b'.els)], b'.counter)
    case For(k, v, it, a, b) =>
      var m := n + 1;
      var a' := Lower(a, LoopShadow(shadow, k, v, m), m);
      var b' := LowerOpt(b, shadow, a'.counter);
      Js(Loop(m, LowerExpr(it, shadow), v.Some?, a'.stmts, b'.body), b'.counter)
  }

  /** The statements of loop m.  The flag exists only for an else body. */
  function Loop(m: nat, iterable: JExpr, hasValue: bool, body: seq<JStmt>, els: Option<seq<JStmt>>): seq<JStmt> {
    var value := if hasValue then Some(ValueId(m)) else None;
    match els
    case None =>
      [DeclareIterable(IterableId(m), iterable), ForIn(KeyId(m), IterableId(m), value, body, None)]
    case Some(els) =>
      [DeclareIterable(IterableId(m), iterable), DeclareFlag(IsEmptyId(m)),
       ForIn(KeyId(m), IterableId(m), value, body, Some(IsEmptyId(m))), IfFlag(IsEmptyId(m), els)]
  }

  function LowerOpt(o: Option<AST>, shadow: Shadow, n: nat): (r: JsOpt)
    requires IncludeFreeOpt(o)
    ensures r.counter >= n
    decreases o, 0
  {
    match o
    case None => JsOpt(None, n)
    case Some(t) => var t' := Lower(t, shadow, n); JsOpt(Some(t'.stmts), t'.counter)
  }

  function LowerElse(o: Option<AST>, shadow: Shadow, n: nat): (r: JsElse)
    requires IncludeFreeOpt(o)
    ensures r.counter >= n
    decreases o, 0
  {
    match o
    case None => JsElse(NoElse, n)
    case Some(t) => LowerElseBody(t, shadow, n)
  }

  /** An `if` in the else position continues the chain. */
  function LowerElseBody(t: AST, shadow: Shadow, n: nat): (r: JsElse)
    requires IncludeFree(t)
    ensures r.counter >= n
    decreases t, 1
  {
    match t
    case If(c, a, b) =>
      var a' := Lower(a, shadow, n);
      var b' := LowerElse(b, shadow, a'.counter);
      JsElse(ElseIf(LowerExpr(c, shadow), a'.stmts, b'.els), b'.counter)
    case _ =>
      var t' := Lower(t, shadow, n);
      JsElse(Else(t'.stmts), t'.counter)
  }

  function LowerAll(l: seq<AST>, shadow: Shadow, n: nat): (r: Js)
    requires IncludeFreeAll(l)
    ensures r.counter >= n
    decreases l, 0
  {
    if l == [] then Js([], n)
    else
      var a := Lower(l[0], shadow, n);
      var b := LowerAll(l[1..], shadow, a.counter);
      Js(a.stmts + b.stmts, b.counter)
  }

  // ---------- Running the tree ----------

  /** The function-scoped local variables, and what was appended to `buffer`. */
  datatype Run = Run(locals: map<Id, Value>, out: Outcome)

  /** A local variable; undefined before its first assignment. */
  function Held(locals: map<Id, Value>, id: Id): Value {
    if id in locals then locals[id] else Null
  }

  /** The value of an expression, or None where it throws.  `&&` and `||` return an operand,
      and evaluate the right one only when they need it. */
  function JEval(j: Engine, data: Env, e: JExpr, locals: map<Id, Value>): Option<Value> {
    match e
    case Local(id) => Some(Held(locals, id))
    case Data(x) => data(x)
    case Member(b, n) =>
      var v := JEval(j, data, b, locals);
      if v.None? then None else Property(j, v.value, n)
    case Helper(m, args) =>
      (match JEvalAll(j, data, args, locals)
       case None => None
       case Some(vs) => j.lib.call(m, vs))
    case Const(v) => Read(j, v)
    case JBin(op, l, r) =>
      var a, b := JEval(j, data, l, locals), JEval(j, data, r, locals);
      if a.None? || b.None? then None else j.lib.binary(op, a.value, b.value)
    case JUn(op, s) =>
      var a := JEval(j, data, s, locals);
      if a.None? then None
      else if op.BooleanNegation? then Some(Bool(!IsTrue(j.lib, a.value)))
      else j.lib.unary(op, a.value)
    case JCmp(op, l, r) =>
      var a := JEval(j, data, l, locals);
      if IsLogical(op) then
        if a.None? || Skips(j.lib, op, a.value) then a else JEval(j, data, r, locals)
      else
        var b := JEval(j, data, r, locals);
        if a.None? || b.None? then None
        else
          match j.lib.compare(op, a.value, b.value)
          case None => None
          case Some(c) => Some(Bool(c))
  }

  function JEvalAll(j: Engine, data: Env, es: seq<JExpr>, locals: map<Id, Value>): Option<seq<Value>> {
    if es == [] then Some([])
    else
      var v, vs := JEval(j, data, es[0], locals), JEvalAll(j, data, es[1..], locals);
      if v.None? || vs.None? then None else Some([v.value] + vs.value)
  }

  function Exec(j: Engine, data: Env, s: JStmt, locals: map<Id, Value>): Run
    decreases s, 0
  {
    match s
    case Append(e) =>
      (match JEval(j, data, e, locals)
       case None => Run(locals, FAILED)
       case Some(v) => Run(locals, Outcome(Show(j.lib, v), true)))
    case DeclareIterable(id, e) =>
      (match JEval(j, data, e, locals)
       case None => Run(locals, FAILED)
       case Some(v) => Run(locals[id := v], NOTHING))
    case DeclareFlag(id) => Run(locals[id := Bool(true)], NOTHING)
    case JIf(c, a, b) =>
      (match JEval(j, data, c, locals)
       case None => Run(locals, FAILED)
       case Some(v) => if IsTrue(j.lib, v) then ExecAll(j, data, a, locals) else ExecElse(j, data, b, locals))
    case ForIn(k, it, v, body, flag) =>
      ExecLoop(j, data, k, it, v, Keys(j, Held(locals, it)), body, flag, locals)
    case IfFlag(id, body) =>
      if IsTrue(j.lib, Held(locals, id)) then ExecAll(j, data, body, locals) else Run(locals, NOTHING)
  }

  function ExecElse(j: Engine, data: Env, s: JElse, locals: map<Id, Value>): Run
    decreases s, 0
  {
    match s
    case NoElse => Run(locals, NOTHING)
    case Else(b) => ExecAll(j, data, b, locals)
    case ElseIf(c, a, b) =>
      match JEval(j, data, c, locals)
      case None => Run(locals, FAILED)
      case Some(v) => if IsTrue(j.lib, v) then ExecAll(j, data, a, locals) else ExecElse(j, data, b, locals)
  }

  function ExecAll(j: Engine, data: Env, l: seq<JStmt>, locals: map<Id, Value>): Run
    decreases l, 0
  {
    if l == [] then Run(locals, NOTHING)
    else
      var a := Exec(j, data, l[0], locals);
      if !a.out.ok then a
      else
        var b := ExecAll(j, data, l[1..], a.locals);
        Run(b.locals, Then(a.out, b.out))
  }

  /** `for (var k in it) { if (!it.hasOwnProperty(k)) continue; var v = it[k]; body; flag = false; }`
      over the keys that are left. */
  function ExecLoop(j: Engine, data: Env, k: Id, it: Id, v: Option<Id>, keys: seq<Value>, body: seq<JStmt>,
                    flag: Option<Id>, locals: map<Id, Value>): Run
    decreases body, 1, |keys|
  {
    if keys == [] then Run(locals, NOTHING)
    else
      var at := locals[k := keys[0]];
      var value := OwnValue(Own(j, Held(at, it)), keys[0]);
      if Held(at, it).Null? then Run(at, FAILED)
      else if value.None? then ExecLoop(j, data, k, it, v, keys[1..], body, flag, at)
      else
        var a := ExecAll(j, data, body, Iteration(k, v, Entry(keys[0], value.value), locals));
        if !a.out.ok then a
        else
          var b := ExecLoop(j, data, k, it, v, keys[1..], body, flag, Cleared(a.locals, flag));
          Run(b.locals, Then(a.out, b.out))
  }

  function Iteration(k: Id, v: Option<Id>, entry: Entry, locals: map<Id, Value>): map<Id, Value> {
    var l := locals[k := entry.key];
    if v.Some? then l[v.value := entry.val] else l
  }

  function Cleared(locals: map<Id, Value>, flag: Option<Id>): map<Id, Value> {
    if flag.Some? then locals[flag.value := Bool(false)] else locals
  }

  // ---------- Names and values ----------

  /** Each shadowed variable is held by its local, every other one is in `data`. */
  ghost predicate Linked(shadow: Shadow, locals: map<Id, Value>, data: Env, env: Env) {
    forall x ::
      if x in shadow then shadow[x] in locals && env(x) == Some(locals[shadow[x]]) else env(x) == data(x)
  }

  predicate Below(shadow: Shadow, n: nat) {
    forall x :: x in shadow ==> shadow[x].n <= n
  }

  /** Locals numbered up to n kept their values. */
  ghost predicate Keeps(before: map<Id, Value>, after: map<Id, Value>, n: nat) {
    forall id :: id in before && id.n <= n ==> id in after && after[id] == before[id]
  }

  lemma LinkedAfter(shadow: Shadow, before: map<Id, Value>, after: map<Id, Value>, n: nat, data: Env, env: Env)
    requires Linked(shadow, before, data, env) && Below(shadow, n) && Keeps(before, after, n)
    ensures Linked(shadow, after, data, env)
  {
  }

  /** Entering iteration n of a loop links its variables, also when both have one name. */
  lemma LinkedIteration(shadow: Shadow, locals: map<Id, Value>, k: Option<string>, v: Option<string>, n: nat,
                        entry: Entry, data: Env, env: Env)
    requires Linked(shadow, locals, data, env) && Below(shadow, n)
    ensures var value := if v.Some? then Some(ValueId(n + 1)) else None;
            Linked(LoopShadow(shadow, k, v, n + 1), Iteration(KeyId(n + 1), value, entry, locals),
                   data, Bind(env, k, v, entry))
    ensures Below(LoopShadow(shadow, k, v, n + 1), n + 1)
  {
  }

  /** Both decide a condition alike, or both fail to compute it. */
  predicate SameTruth(j: Engine, h: Host, x: Option<Value>, y: Option<Value>) {
    x.Some? == y.Some? && (x.Some? ==> IsTrue(j.lib, x.value) == IsTrue(h, y.value))
  }

  lemma VariableValue(j: Engine, h: Host, data: Env, e: Expr, shadow: Shadow, locals: map<Id, Value>, env: Env)
    requires Linked(shadow, locals, data, env) && e.Var?
    ensures JEval(j, data, LowerExpr(e, shadow), locals) == Eval(h, e, env)
  {
  }

  /** A renamed expression has the interpreter's value, or truth, where the engine agrees with
      the interpreter's library. */
  lemma {:induction false} LoweredExprValue(j: Engine, h: Host, data: Env, e: Expr, shadow: Shadow,
                                            locals: map<Id, Value>, env: Env)
    requires Linked(shadow, locals, data, env)
    ensures ValueAgrees(j, h, e, env) ==> JEval(j, data, LowerExpr(e, shadow), locals) == Eval(h, e, env)
    ensures TestAgrees(j, h, e, env) ==> SameTruth(j, h, JEval(j, data, LowerExpr(e, shadow), locals), Eval(h, e, env))
    decreases e, 1
  {
    LoweredValue(j, h, data, e, shadow, locals, env);
    if e.Cmp? && IsLogical(e.cop) {
      LoweredExprValue(j, h, data, e.left, shadow, locals, env);
      LoweredExprValue(j, h, data, e.right, shadow, locals, env);
      LogicalTruth(j, h, data, e.cop, e.left, e.right, shadow, locals, env);
    }
    hide JEval, Eval, ValueAgrees, LogicalAgrees, IsTrue;
  }

  lemma {:induction false} LoweredValue(j: Engine, h: Host, data: Env, e: Expr, shadow: Shadow,
                                        locals: map<Id, Value>, env: Env)
    requires Linked(shadow, locals, data, env)
    ensures ValueAgrees(j, h, e, env) ==> JEval(j, data, LowerExpr(e, shadow), locals) == Eval(h, e, env)
    decreases e, 0
  {
    hide Linked, BinaryValue, UnaryValue, CompareValue, TestAgrees, LogicalAgrees;
    match e
    case Var(_) => VariableValue(j, h, data, e, shadow, locals, env);
    case Attr(b, _) => LoweredExprValue(j, h, data, b, shadow, locals, env);
    case Call(_, args) =>
      if AllAgree(j, h, args, env) {
        LoweredExprValues(j, h, data, args, shadow, locals, env);
      }
    case Bin(_, l, r) =>
      LoweredExprValue(j, h, data, l, shadow, locals, env);
      LoweredExprValue(j, h, data, r, shadow, locals, env);
    case Un(_, s) => LoweredExprValue(j, h, data, s, shadow, locals, env);
    case Cmp(op, l, r) =>
      LoweredExprValue(j, h, data, l, shadow, locals, env);
      LoweredExprValue(j, h, data, r, shadow, locals, env);
      if IsLogical(op) && ValueAgrees(j, h, e, env) {
        LogicalOperand(j, h, data, op, l, r, shadow, locals, env);
      }
    case _ =>
  }

  /** An operand returned by `&&` or `||` has the truth of the combination. */
  lemma LogicalTruth(j: Engine, h: Host, data: Env, op: ComparisonOp, l: Expr, r: Expr, shadow: Shadow,
                     locals: map<Id, Value>, env: Env)
    requires IsLogical(op)
    requires TestAgrees(j, h, l, env) ==> SameTruth(j, h, JEval(j, data, LowerExpr(l, shadow), locals), Eval(h, l, env))
    requires TestAgrees(j, h, r, env) ==> SameTruth(j, h, JEval(j, data, LowerExpr(r, shadow), locals), Eval(h, r, env))
    ensures LogicalAgrees(j, h, op, l, r, env) ==>
              SameTruth(j, h, JEval(j, data, LowerExpr(Cmp(op, l, r), shadow), locals), Eval(h, Cmp(op, l, r), env))
  {
    hide TestAgrees, CompareValue;
  }

  /** ... and is the combination itself if both are booleans. */
  lemma LogicalOperand(j: Engine, h: Host, data: Env, op: ComparisonOp, l: Expr, r: Expr, shadow: Shadow,
                       locals: map<Id, Value>, env: Env)
    requires IsLogical(op) && ValueAgrees(j, h, Cmp(op, l, r), env)
    requires ValueAgrees(j, h, l, env) ==> JEval(j, data, LowerExpr(l, shadow), locals) == Eval(h, l, env)
    requires ValueAgrees(j, h, r, env) ==> JEval(j, data, LowerExpr(r, shadow), locals) == Eval(h, r, env)
    ensures JEval(j, data, LowerExpr(Cmp(op, l, r), shadow), locals) == Eval(h, Cmp(op, l, r), env)
  {
  }

  lemma {:induction false} LoweredExprValues(j: Engine, h: Host, data: Env, es: seq<Expr>, shadow: Shadow,
                                             locals: map<Id, Value>, env: Env)
    requires Linked(shadow, locals, data, env) && AllAgree(j, h, es, env)
    ensures JEvalAll(j, data, LowerExprs(es, shadow), locals) == EvalAll(h, es, env)
    decreases es, 2
  {
    if es != [] {
      LoweredExprValue(j, h, data, es[0], shadow, locals, env);
      LoweredExprValues(j, h, data, es[1..], shadow, locals, env);
    }
  }

  lemma {:induction false} ExecConcat(j: Engine, data: Env, a: seq<JStmt>, b: seq<JStmt>, locals: map<Id, Value>)
    ensures var ra := ExecAll(j, data, a, locals);
            ExecAll(j, data, a + b, locals) ==
              if ra.out.ok then
                var rb := ExecAll(j, data, b, ra.locals);
                Run(rb.locals, Then(ra.out, rb.out))
              else ra
  {
    if a == [] {
      assert a + b == b;
    } else {
      assert (a + b)[1..] == a[1..] + b;
      var r := Exec(j, data, a[0], locals);
      if r.out.ok {
        ExecConcat(j, data, a[1..], b, r.locals);
        var ra := ExecAll(j, data, a[1..], r.locals);
        if ra.out.ok {
          ThenAssociates(r.out, ra.out, ExecAll(j, data, b, ra.locals).out);
        }
      }
    }
  }

  // ---------- The emitted statements render the template ----------

  /** What running lowered statements must achieve: the text of the reference interpreter,
      and no change to the locals of enclosing loops. */
  ghost predicate RunsAs(r: Run, o: Outcome, before: map<Id, Value>, n: nat) {
    r.out == o && (o.ok ==> Keeps(before, r.locals, n))
  }

  lemma ExecOne(j: Engine, data: Env, s: JStmt, locals: map<Id, Value>)
    ensures ExecAll(j, data, [s], locals) == Exec(j, data, s, locals)
  {
    assert [s][1..] == [];
  }

  lemma ExecTwo(j: Engine, data: Env, s: JStmt, t: JStmt, rest: seq<JStmt>, locals: map<Id, Value>)
    ensures ExecAll(j, data, [s, t] + rest, locals) ==
              var a := Exec(j, data, s, locals);
              if !a.out.ok then a
              else
                var b := Exec(j, data, t, a.locals);
                if !b.out.ok then Run(b.locals, Then(a.out, b.out))
                else
                  var c := ExecAll(j, data, rest, b.locals);
                  Run(c.locals, Then(a.out, Then(b.out, c.out)))
  {
    var l := [s, t] + rest;
    assert l[1..] == [t] + rest && l[1..][1..] == rest;
  }

  /** Running the lowered statements appends to the buffer exactly what the template renders
      and stops where it stops, whatever loop variables are in scope. */
  lemma {:induction false} ExecRenders(j: Engine, w: World, data: Env, t: AST, shadow: Shadow, n: nat,
                                       locals: map<Id, Value>, env: Env)
    requires IncludeFree(t) && Linked(shadow, locals, data, env) && Below(shadow, n)
    requires Throughout(w, Agreement(j, w.host), t, env)
    ensures RunsAs(ExecAll(j, data, Lower(t, shadow, n).stmts, locals), Render(w, 0, t, env), locals, n)
    decreases t, 1, 0
  {
    match t
    case Statements(l) => ExecAllRenders(j, w, data, l, shadow, n, locals, env);
    case Raw(text) => ExecOne(j, data, Append(Const(Str(text))), locals);
    case Print(e) =>
      ExecOne(j, data, Append(LowerExpr(e, shadow)), locals);
      LoweredExprValue(j, w.host, data, e, shadow, locals, env);
    case If(c, a, b) =>
      var a' := Lower(a, shadow, n);
      ExecOne(j, data, JIf(LowerExpr(c, shadow), a'.stmts, LowerElse(b, shadow, a'.counter).els), locals);
      LoweredExprValue(j, w.host, data, c, shadow, locals, env);
      var x := Eval(w.host, c, env);
      if x.Some? && IsTrue(w.host, x.value) {
        ExecRenders(j, w, data, a, shadow, n, locals, env);
      } else if x.Some? {
        ExecElseRenders(j, w, data, b, shadow, a'.counter, locals, env);
      }
    case For(k, v, it, a, b) => ExecForRenders(j, w, data, k, v, it, a, b, shadow, n, locals, env);
  }

  lemma {:induction false} ExecElseRenders(j: Engine, w: World, data: Env, o: Option<AST>, shadow: Shadow, n: nat,
                                           locals: map<Id, Value>, env: Env)
    requires IncludeFreeOpt(o) && Linked(shadow, locals, data, env) && Below(shadow, n)
    requires ThroughoutOpt(w, Agreement(j, w.host), o, env)
    ensures RunsAs(ExecElse(j, data, LowerElse(o, shadow, n).els, locals), RenderOpt(w, 0, o, env), locals, n)
    decreases o, 0, 0
  {
    if o.Some? {
      ExecElseBodyRenders(j, w, data, o.value, shadow, n, locals, env);
    }
  }

  lemma {:induction false} ExecElseBodyRenders(j: Engine, w: World, data: Env, t: AST, shadow: Shadow, n: nat,
                                               locals: map<Id, Value>, env: Env)
    requires IncludeFree(t) && Linked(shadow, locals, data, env) && Below(shadow, n)
    requires Throughout(w, Agreement(j, w.host), t, env)
    ensures RunsAs(ExecElse(j, data, LowerElseBody(t, shadow, n).els, locals), Render(w, 0, t, env), locals, n)
    decreases t, 2, 0
  {
    if t.If? {
      var a' := Lower(t.thenBody, shadow, n);
      LoweredExprValue(j, w.host, data, t.cond, shadow, locals, env);
      var x := Eval(w.host, t.cond, env);
      if x.Some? && IsTrue(w.host, x.value) {
        ExecRenders(j, w, data, t.thenBody, shadow, n, locals, env);
      } else if x.Some? {
        ExecElseRenders(j, w, data, t.elseBody, shadow, a'.counter, locals, env);
      }
    } else {
      ExecRenders(j, w, data, t, shadow, n, locals, env);
    }
  }

  lemma {:induction false} ExecAllRenders(j: Engine, w: World, data: Env, l: seq<AST>, shadow: Shadow, n: nat,
                                          locals: map<Id, Value>, env: Env)
    requires IncludeFreeAll(l) && Linked(shadow, locals, data, env) && Below(shadow, n)
    requires ThroughoutAll(w, Agreement(j, w.host), l, env)
    ensures RunsAs(ExecAll(j, data, LowerAll(l, shadow, n).stmts, locals), RenderAll(w, 0, l, env), locals, n)
    decreases l, 0, 0
  {
    if l != [] {
      var a := Lower(l[0], shadow, n);
      var b := LowerAll(l[1..], shadow, a.counter);
      ExecRenders(j, w, data, l[0], shadow, n, locals, env);
      ExecConcat(j, data, a.stmts, b.stmts, locals);
      var ra := ExecAll(j, data, a.stmts, locals);
      if ra.out.ok {
        LinkedAfter(shadow, locals, ra.locals, n, data, env);
        ExecAllRenders(j, w, data, l[1..], shadow, a.counter, ra.locals, env);
      }
    }
  }

  /** A loop is lowered to the statements of Loop, and rendered entry by entry. */
  lemma ForUnfolds(w: World, k: Option<string>, v: Option<string>, it: Expr, a: AST, b: Option<AST>, shadow: Shadow,
                   n: nat, env: Env)
    requires IncludeFree(a) && IncludeFreeOpt(b)
    ensures IncludeFree(For(k, v, it, a, b))
    ensures var a' := Lower(a, LoopShadow(shadow, k, v, n + 1), n + 1);
            Lower(For(k, v, it, a, b), shadow, n).stmts
            == Loop(n + 1, LowerExpr(it, shadow), v.Some?, a'.stmts, LowerOpt(b, shadow, a'.counter).body)
    ensures var c := Eval(w.host, it, env);
            Render(w, 0, For(k, v, it, a, b), env)
            == if c.None? then FAILED
               else if EntriesOf(c.value) == [] then RenderOpt(w, 0, b, env)
               else RenderLoop(w, 0, k, v, EntriesOf(c.value), a, env)
    ensures b.Some? ==> RenderOpt(w, 0, b, env) == Render(w, 0, b.value, env) && IncludeFree(b.value)
    ensures b.Some? ==> forall m :: LowerOpt(b, shadow, m).body == Some(Lower(b.value, shadow, m).stmts)
    ensures b.None? ==> RenderOpt(w, 0, b, env) == NOTHING && forall m :: LowerOpt(b, shadow, m).body == None
  {
    hide LoopShadow, LowerExpr, Eval, EntriesOf, Loop;
  }

  lemma {:induction false} ExecForRenders(j: Engine, w: World, data: Env, k: Option<string>, v: Option<string>,
                                          it: Expr, a: AST, b: Option<AST>, shadow: Shadow, n: nat,
                                          locals: map<Id, Value>, env: Env)
    requires IncludeFree(a) && IncludeFreeOpt(b) && Linked(shadow, locals, data, env) && Below(shadow, n)
    requires Throughout(w, Agreement(j, w.host), For(k, v, it, a, b), env)
    ensures IncludeFree(For(k, v, it, a, b))
    ensures RunsAs(ExecAll(j, data, Lower(For(k, v, it, a, b), shadow, n).stmts, locals),
                   Render(w, 0, For(k, v, it, a, b), env), locals, n)
    decreases For(k, v, it, a, b), 0, 0
  {
    hide Lower, LowerOpt, LowerExpr, Loop, Exec, ExecAll, ExecLoop, Render, RenderOpt, RenderLoop, Eval, JEval,
         EntriesOf, Linked, Below,
         IncludeFree, LoopShadow, Throughout, ThroughoutOpt, ThroughoutLoop, ValueAgrees;
    var m := n + 1;
    var iterable := LowerExpr(it, shadow);
    ForUnfolds(w, k, v, it, a, b, shadow, n, env);
    var a' := Lower(a, LoopShadow(shadow, k, v, m), m);
    LoweredExprValue(j, w.host, data, it, shadow, locals, env);
    ForAgrees(j, w, k, v, it, a, b, env);
    var c := Eval(w.host, it, env);
    if c.None? {
      LoopFails(j, data, m, iterable, v.Some?, a'.stmts, LowerOpt(b, shadow, a'.counter).body, locals);
    } else {
      var start := locals[IterableId(m) := c.value];
      LinkedAfter(shadow, locals, start, n, data, env);
      match b
      case None =>
        RunWithoutElse(j, data, m, iterable, v.Some?, a'.stmts, c.value, locals);
        ExecLoopRenders(j, w, data, k, v, c.value, Keys(j, c.value), a, None, shadow, n, start, env);
        NoEntries(w, k, v, a, env);
      case Some(els) =>
        var flagged := start[IsEmptyId(m) := Bool(true)];
        RunWithElse(j, data, m, iterable, v.Some?, a'.stmts, Lower(els, shadow, a'.counter).stmts, c.value, locals);
        LinkedAfter(shadow, locals, flagged, n, data, env);
        ExecLoopRenders(j, w, data, k, v, c.value, Keys(j, c.value), a, Some(IsEmptyId(m)), shadow, n, flagged, env);
        var r := ExecLoop(j, data, KeyId(m), IterableId(m), if v.Some? then Some(ValueId(m)) else None,
                          Keys(j, c.value), a'.stmts, Some(IsEmptyId(m)), flagged);
        NoEntries(w, k, v, a, env);
        if EntriesOf(c.value) == [] {
          LinkedAfter(shadow, flagged, r.locals, n, data, env);
          BelowLater(shadow, n, a'.counter);
          ExecRenders(j, w, data, els, shadow, a'.counter, r.locals, env);
        }
    }
  }

  /** What agreement throughout a loop says of its parts. */
  lemma ForAgrees(j: Engine, w: World, k: Option<string>, v: Option<string>, it: Expr, a: AST, b: Option<AST>, env: Env)
    requires Throughout(w, Agreement(j, w.host), For(k, v, it, a, b), env)
    ensures ValueAgrees(j, w.host, it, env)
    ensures var c := Eval(w.host, it, env);
            c.Some? ==>
              && Visited(j, c.value, Keys(j, c.value)) == EntriesOf(c.value)
              && ThroughoutLoop(w, Agreement(j, w.host), k, v, EntriesOf(c.value), a, env)
              && (EntriesOf(c.value) == [] ==> ThroughoutOpt(w, Agreement(j, w.host), b, env))
    ensures b.Some? ==>
              ThroughoutOpt(w, Agreement(j, w.host), b, env) == Throughout(w, Agreement(j, w.host), b.value, env)
  {
    hide ValueAgrees, Eval, EntriesOf;
  }

  lemma BelowLater(shadow: Shadow, n: nat, m: nat)
    requires Below(shadow, n) && n <= m
    ensures Below(shadow, m)
  {
  }

  lemma NoEntries(w: World, k: Option<string>, v: Option<string>, a: AST, env: Env)
    ensures RenderLoop(w, 0, k, v, [], a, env) == NOTHING
    ensures forall o: Outcome :: Then(NOTHING, o) == o
  {
    forall o: Outcome
      ensures Then(NOTHING, o) == o
    {
      assert "" + o.text == o.text;
    }
  }

  /** What the statements of a loop do, in terms of the loop alone. */
  lemma LoopFails(j: Engine, data: Env, m: nat, iterable: JExpr, hasValue: bool, body: seq<JStmt>,
                  els: Option<seq<JStmt>>, locals: map<Id, Value>)
    requires JEval(j, data, iterable, locals) == None
    ensures ExecAll(j, data, Loop(m, iterable, hasValue, body, els), locals) == Run(locals, FAILED)
  {
    hide JEval;
    assert Loop(m, iterable, hasValue, body, els)[0] == DeclareIterable(IterableId(m), iterable);
    assert Exec(j, data, DeclareIterable(IterableId(m), iterable), locals) == Run(locals, FAILED);
  }

  /** Single statements of a loop. */
  lemma ExecDeclare(j: Engine, data: Env, id: Id, e: JExpr, c: Value, locals: map<Id, Value>)
    requires JEval(j, data, e, locals) == Some(c)
    ensures Exec(j, data, DeclareIterable(id, e), locals) == Run(locals[id := c], NOTHING)
    ensures Exec(j, data, DeclareFlag(id), locals) == Run(locals[id := Bool(true)], NOTHING)
  {
    hide JEval;
  }

  lemma ExecForIn(j: Engine, data: Env, k: Id, it: Id, v: Option<Id>, body: seq<JStmt>, flag: Option<Id>, c: Value,
                  locals: map<Id, Value>)
    requires Held(locals, it) == c
    ensures Exec(j, data, ForIn(k, it, v, body, flag), locals)
            == ExecLoop(j, data, k, it, v, Keys(j, c), body, flag, locals)
  {
    hide ExecLoop;
  }

  lemma ExecIfFlag(j: Engine, data: Env, id: Id, body: seq<JStmt>, locals: map<Id, Value>)
    ensures Exec(j, data, IfFlag(id, body), locals)
         == if IsTrue(j.lib, Held(locals, id)) then ExecAll(j, data, body, locals) else Run(locals, NOTHING)
  {
    hide ExecAll;
  }

  lemma ExecNothing(j: Engine, data: Env, locals: map<Id, Value>)
    ensures ExecAll(j, data, [], locals) == Run(locals, NOTHING)
    ensures forall o: Outcome :: Then(NOTHING, o) == o && (o.ok ==> Then(o, NOTHING) == o)
  {
    forall o: Outcome
      ensures Then(NOTHING, o) == o && (o.ok ==> Then(o, NOTHING) == o)
    {
      assert "" + o.text == o.text && o.text + "" == o.text;
    }
  }

  lemma RunWithoutElse(j: Engine, data: Env, m: nat, iterable: JExpr, hasValue: bool, body: seq<JStmt>, c: Value,
                       locals: map<Id, Value>)
    requires JEval(j, data, iterable, locals) == Some(c)
    ensures var value := if hasValue then Some(ValueId(m)) else None;
            var start := locals[IterableId(m) := c];
            var r := ExecLoop(j, data, KeyId(m), IterableId(m), value, Keys(j, c), body, None, start);
            var all := ExecAll(j, data, Loop(m, iterable, hasValue, body, None), locals);
            all.locals == r.locals && all.out == r.out
  {
    hide Exec, ExecAll, ExecLoop, JEval, Then;
    var value := if hasValue then Some(ValueId(m)) else None;
    var declare, forIn := DeclareIterable(IterableId(m), iterable), ForIn(KeyId(m), IterableId(m), value, body, None);
    assert [declare, forIn] + [] == [declare, forIn];
    ExecTwo(j, data, declare, forIn, [], locals);
    ExecDeclare(j, data, IterableId(m), iterable, c, locals);
    var start := locals[IterableId(m) := c];
    ExecForIn(j, data, KeyId(m), IterableId(m), value, body, None, c, start);
    ExecNothing(j, data, ExecLoop(j, data, KeyId(m), IterableId(m), value, Keys(j, c), body, None, start).locals);
  }

  lemma RunWithElse(j: Engine, data: Env, m: nat, iterable: JExpr, hasValue: bool, body: seq<JStmt>, els: seq<JStmt>,
                    c: Value, locals: map<Id, Value>)
    requires JEval(j, data, iterable, locals) == Some(c)
    ensures var value := if hasValue then Some(ValueId(m)) else None;
            var flagged := locals[IterableId(m) := c][IsEmptyId(m) := Bool(true)];
            var r := ExecLoop(j, data, KeyId(m), IterableId(m), value, Keys(j, c), body, Some(IsEmptyId(m)), flagged);
            var all := ExecAll(j, data, Loop(m, iterable, hasValue, body, Some(els)), locals);
            if r.out.ok && IsTrue(j.lib, Held(r.locals, IsEmptyId(m))) then
              var e := ExecAll(j, data, els, r.locals);
              all.locals == e.locals && all.out == Then(r.out, e.out)
            else all.locals == r.locals && all.out == r.out
  {
    hide Exec, ExecAll, ExecLoop, JEval, Then;
    var value := if hasValue then Some(ValueId(m)) else None;
    var flag := IsEmptyId(m);
    var declare := DeclareIterable(IterableId(m), iterable);
    var forIn := ForIn(KeyId(m), IterableId(m), value, body, Some(flag));
    var start := locals[IterableId(m) := c];
    var flagged := start[flag := Bool(true)];
    assert [declare, DeclareFlag(flag), forIn, IfFlag(flag, els)]
      == [declare, DeclareFlag(flag)] + ([forIn, IfFlag(flag, els)] + []);
    ExecTwo(j, data, declare, DeclareFlag(flag), [forIn, IfFlag(flag, els)] + [], locals);
    ExecDeclare(j, data, IterableId(m), iterable, c, locals);
    FlagDeclared(j, data, flag, start);
    ExecTwo(j, data, forIn, IfFlag(flag, els), [], flagged);
    ExecForIn(j, data, KeyId(m), IterableId(m), value, body, Some(flag), c, flagged);
    var r := ExecLoop(j, data, KeyId(m), IterableId(m), value, Keys(j, c), body, Some(flag), flagged);
    ExecIfFlag(j, data, flag, els, r.locals);
    ExecNothing(j, data, r.locals);
    ExecNothing(j, data, ExecAll(j, data, els, r.locals).locals);
  }

  lemma FlagDeclared(j: Engine, data: Env, id: Id, locals: map<Id, Value>)
    ensures Exec(j, data, DeclareFlag(id), locals) == Run(locals[id := Bool(true)], NOTHING)
  {
  }

  /** The next key of a loop, if it is not an own one ... */
  lemma LoopSkips(j: Engine, data: Env, k: Id, it: Id, v: Option<Id>, c: Value, keys: seq<Value>, stmts: seq<JStmt>,
                  flag: Option<Id>, locals: map<Id, Value>)
    requires keys != [] && !c.Null? && it != k && Held(locals, it) == c && OwnValue(Own(j, c), keys[0]).None?
    ensures ExecLoop(j, data, k, it, v, keys, stmts, flag, locals)
            == ExecLoop(j, data, k, it, v, keys[1..], stmts, flag, locals[k := keys[0]])
    ensures Visited(j, c, keys) == Visited(j, c, keys[1..])
  {
    hide Own, OwnValue;
  }

  /** ... and if it is. */
  lemma LoopSteps(j: Engine, data: Env, k: Id, it: Id, v: Option<Id>, c: Value, keys: seq<Value>, stmts: seq<JStmt>,
                  flag: Option<Id>, locals: map<Id, Value>)
    requires keys != [] && !c.Null? && it != k && Held(locals, it) == c && OwnValue(Own(j, c), keys[0]).Some?
    ensures Visited(j, c, keys) != [] && Visited(j, c, keys)[1..] == Visited(j, c, keys[1..])
    ensures var r := ExecAll(j, data, stmts, Iteration(k, v, Visited(j, c, keys)[0], locals));
            var rest := ExecLoop(j, data, k, it, v, keys[1..], stmts, flag, Cleared(r.locals, flag));
            ExecLoop(j, data, k, it, v, keys, stmts, flag, locals)
            == if !r.out.ok then r else Run(rest.locals, Then(r.out, rest.out))
  {
    hide ExecAll, Own, OwnValue, Iteration, Then, Cleared;
  }

  lemma RenderStep(w: World, k: Option<string>, v: Option<string>, entries: seq<Entry>, body: AST, env: Env)
    requires entries != []
    ensures RenderLoop(w, 0, k, v, entries, body, env)
         == Then(Render(w, 0, body, Bind(env, k, v, entries[0])), RenderLoop(w, 0, k, v, entries[1..], body, env))
  {
    hide Render, Bind, Then;
  }

  lemma LoopDone(j: Engine, w: World, data: Env, k: Id, it: Id, v: Option<Id>, key: Option<string>,
                 value: Option<string>, c: Value, stmts: seq<JStmt>, body: AST, flag: Option<Id>,
                 locals: map<Id, Value>, env: Env)
    ensures ExecLoop(j, data, k, it, v, [], stmts, flag, locals) == Run(locals, NOTHING)
    ensures Visited(j, c, []) == [] && RenderLoop(w, 0, key, value, [], body, env) == NOTHING
  {
  }

  /** What running a loop must achieve: besides the text, its flag is cleared if there was an
      entry and otherwise left as it was. */
  ghost predicate LoopRan(r: Run, o: Outcome, entries: seq<Entry>, flag: Option<Id>, locals: map<Id, Value>, n: nat) {
    && RunsAs(r, o, locals, n)
    && (r.out.ok && flag.Some? ==>
          Held(r.locals, flag.value) == if entries == [] then Held(locals, flag.value) else Bool(false))
  }

  lemma LoopRanOn(first: Run, o1: Outcome, rest: Run, o2: Outcome, entries: seq<Entry>, flag: Option<Id>,
                  before: map<Id, Value>, locals: map<Id, Value>, n: nat)
    requires entries != [] && RunsAs(first, o1, before, n + 1) && Keeps(locals, before, n)
    requires flag.Some? ==> flag.value == IsEmptyId(n + 1)
    requires first.out.ok ==> LoopRan(rest, o2, entries[1..], flag, Cleared(first.locals, flag), n)
    ensures LoopRan(if !first.out.ok then first
                    else Run(rest.locals, Then(first.out, rest.out)), Then(o1, o2), entries, flag, locals, n)
  {
  }

  lemma LoopRanPast(r: Run, o: Outcome, entries: seq<Entry>, flag: Option<Id>, key: Value, locals: map<Id, Value>,
                    n: nat)
    requires flag.Some? ==> flag.value == IsEmptyId(n + 1)
    requires LoopRan(r, o, entries, flag, locals[KeyId(n + 1) := key], n)
    ensures LoopRan(r, o, entries, flag, locals, n)
  {
  }

  lemma IterationKeeps(m: nat, v: Option<Id>, entry: Entry, locals: map<Id, Value>, n: nat)
    requires m == n + 1 && (v.Some? ==> v.value == ValueId(m))
    ensures Keeps(locals, Iteration(KeyId(m), v, entry, locals), n)
    ensures Held(Iteration(KeyId(m), v, entry, locals), IterableId(m)) == Held(locals, IterableId(m))
    ensures IterableId(m) in locals ==> IterableId(m) in Iteration(KeyId(m), v, entry, locals)
  {
  }

  /** For all keys that a `for` visits: the emitted loop renders the own ones, in order. */
  lemma {:induction false} ExecLoopRenders(j: Engine, w: World, data: Env, k: Option<string>, v: Option<string>,
                                           c: Value, keys: seq<Value>, body: AST, flag: Option<Id>, shadow: Shadow,
                                           n: nat, locals: map<Id, Value>, env: Env)
    requires IncludeFree(body) && Linked(shadow, locals, data, env) && Below(shadow, n)
    requires flag.Some? ==> flag.value == IsEmptyId(n + 1)
    requires IterableId(n + 1) in locals && locals[IterableId(n + 1)] == c && (keys != [] ==> !c.Null?)
    requires ThroughoutLoop(w, Agreement(j, w.host), k, v, Visited(j, c, keys), body, env)
    ensures var value := if v.Some? then Some(ValueId(n + 1)) else None;
            var stmts := Lower(body, LoopShadow(shadow, k, v, n + 1), n + 1).stmts;
            LoopRan(ExecLoop(j, data, KeyId(n + 1), IterableId(n + 1), value, keys, stmts, flag, locals),
                    RenderLoop(w, 0, k, v, Visited(j, c, keys), body, env), Visited(j, c, keys), flag, locals, n)
    decreases body, 2, |keys|
  {
    hide ExecLoop, ExecAll, Render, RenderLoop, Lower, Throughout, ThroughoutLoop, LoopShadow, Linked, Below,
         IncludeFree, Bind, LoopRan, RunsAs, Keeps,
         Iteration, Then, Cleared, Visited, OwnValue, Own;
    var m := n + 1;
    var value := if v.Some? then Some(ValueId(m)) else None;
    var inner := LoopShadow(shadow, k, v, m);
    var stmts := Lower(body, inner, m).stmts;
    var entries := Visited(j, c, keys);
    if keys == [] {
      LoopDone(j, w, data, KeyId(m), IterableId(m), value, k, v, c, stmts, body, flag, locals, env);
      NoEntriesRan(locals, flag, n);
    } else if OwnValue(Own(j, c), keys[0]).None? {
      LoopSkips(j, data, KeyId(m), IterableId(m), value, c, keys, stmts, flag, locals);
      var at := locals[KeyId(m) := keys[0]];
      KeyKeeps(locals, keys[0], n);
      LinkedAfter(shadow, locals, at, n, data, env);
      ExecLoopRenders(j, w, data, k, v, c, keys[1..], body, flag, shadow, n, at, env);
      LoopRanPast(ExecLoop(j, data, KeyId(m), IterableId(m), value, keys, stmts, flag, locals),
                  RenderLoop(w, 0, k, v, entries, body, env), entries, flag, keys[0], locals, n);
    } else {
      LoopSteps(j, data, KeyId(m), IterableId(m), value, c, keys, stmts, flag, locals);
      var before := Iteration(KeyId(m), value, entries[0], locals);
      var o1, o2 := Render(w, 0, body, Bind(env, k, v, entries[0])), RenderLoop(w, 0, k, v, entries[1..], body, env);
      RenderStep(w, k, v, entries, body, env);
      LinkedIteration(shadow, locals, k, v, n, entries[0], data, env);
      IterationKeeps(m, value, entries[0], locals, n);
      LoopAgrees(j, w, k, v, entries, body, env);
      ExecRenders(j, w, data, body, inner, m, before, Bind(env, k, v, entries[0]));
      var r := ExecAll(j, data, stmts, before);
      var after := Cleared(r.locals, flag);
      var rest := ExecLoop(j, data, KeyId(m), IterableId(m), value, keys[1..], stmts, flag, after);
      if r.out.ok {
        ClearedKeeps(r, o1, before, locals, flag, n);
        LinkedAfter(shadow, locals, after, n, data, env);
        ExecLoopRenders(j, w, data, k, v, c, keys[1..], body, flag, shadow, n, after, env);
      }
      LoopRanOn(r, o1, rest, o2, entries, flag, before, locals, n);
    }
  }

  lemma KeyKeeps(locals: map<Id, Value>, key: Value, n: nat)
    ensures Keeps(locals, locals[KeyId(n + 1) := key], n)
  {
  }

  lemma LoopAgrees(j: Engine, w: World, k: Option<string>, v: Option<string>, entries: seq<Entry>, body: AST, env: Env)
    requires entries != [] && ThroughoutLoop(w, Agreement(j, w.host), k, v, entries, body, env)
    ensures var inner := Bind(env, k, v, entries[0]);
            && Throughout(w, Agreement(j, w.host), body, inner)
            && (Render(w, 0, body, inner).ok ==> ThroughoutLoop(w, Agreement(j, w.host), k, v, entries[1..], body, env))
  {
    hide Throughout, Render, Bind;
  }

  lemma NoEntriesRan(locals: map<Id, Value>, flag: Option<Id>, n: nat)
    ensures LoopRan(Run(locals, NOTHING), NOTHING, [], flag, locals, n)
  {
  }

  lemma ClearedKeeps(r: Run, o: Outcome, before: map<Id, Value>, locals: map<Id, Value>, flag: Option<Id>, n: nat)
    requires RunsAs(r, o, before, n + 1) && r.out.ok && Keeps(locals, before, n)
    requires flag.Some? ==> flag.value == IsEmptyId(n + 1)
    ensures Keeps(locals, Cleared(r.locals, flag), n)
    ensures var it := IterableId(n + 1);
            it in before ==> it in Cleared(r.locals, flag) && Cleared(r.locals, flag)[it] == before[it]
  {
  }

  /** The whole function: with the caller's data and no locals, `buffer` ends up holding what
      the template renders. */
  lemma JavascriptRenders(j: Engine, w: World, data: Env, t: AST)
    requires IncludeFree(t)
    requires Throughout(w, Agreement(j, w.host), t, data)
    ensures ExecAll(j, data, Lower(t, map[], 0).stmts, map[]).out == Render(w, 0, t, data)
  {
    ExecRenders(j, w, data, t, map[], 0, map[], data);
  }
}
