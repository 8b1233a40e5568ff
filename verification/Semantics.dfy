/** The reference interpreter: what a template means, independently of how it is compiled.
    Rendering stops at the first operation that fails and keeps the text produced so far. */
module Semantics {
  import opened Results
  import opened Doubles
  import opened Ast

  // ---------- Values ----------

  datatype Value =
    | Null
    | Bool(b: bool)
    | Int(i: int)
    | Dbl(d: Double)
    | Str(s: string)
    | Table(entries: seq<Entry>)

  /** One key/value pair of an array or an object, in iteration order. */
  datatype Entry = Entry(key: Value, val: Value)

  /** The platform's floating-point unit: rounded arithmetic and decimal spelling. */
  datatype FPU = FPU(arith: (BinaryOp, Double, Double) -> Double, spell: Double -> string)

  /** The run-time library that operates on variants.  Nothing is assumed about it. */
  datatype Host = Host(
    fpu: FPU,
    binary: (BinaryOp, Value, Value) -> Option<Value>,
    unary: (UnaryOp, Value) -> Option<Value>,
    compare: (ComparisonOp, Value, Value) -> Option<bool>,
    call: (string, seq<Value>) -> Option<Value>,
    show: Value -> string,
    truthy: Value -> bool)

  /** The value of each variable, or None where computing it fails. */
  type Env = string -> Option<Value>

  predicate IsNumber(v: Value) {
    v.Int? || v.Dbl?
  }

  function AsDouble(v: Value): Double
    requires IsNumber(v)
  {
    if v.Int? then ToDouble(v.i) else v.d
  }

  // ---------- Operations whose operands are not variants ----------

  /** Quotient rounded towards zero, as `/` on integers in C++ and in LLVM. */
  function TruncDiv(a: int, b: int): int
    requires b != 0
  {
    var q: int := Abs(a) / Abs(b);
    if (a < 0) == (b < 0) then q else 0 - q
  }

  /** Remainder with the sign of the dividend, as `%` in C++. */
  function TruncMod(a: int, b: int): int
    requires b != 0
  {
    a - TruncDiv(a, b) * b
  }

  function IntArith(op: BinaryOp, a: int, b: int): Option<int> {
    match op
    case Addition => Some(a + b)
    case Subtraction => Some(a - b)
    case Multiplication => Some(a * b)
    case Division => if b == 0 then None else Some(TruncDiv(a, b))
    case Modulus => if b == 0 then None else Some(TruncMod(a, b))
  }

  /** `%` overflows exactly when the quotient does (section 5.6 of C++11). */
  function IntResult(op: BinaryOp, a: int, b: int): int
    requires IntArith(op, a, b).Some?
  {
    if op.Modulus? then TruncDiv(a, b) else IntArith(op, a, b).value
  }

  /** Arithmetic on two numbers; None where C++ leaves the result undefined. */
  function NativeBinary(fpu: FPU, op: BinaryOp, a: Value, b: Value): Option<Value> {
    if !IsNumber(a) || !IsNumber(b) then None
    else if a.Dbl? || b.Dbl? then Some(Dbl(fpu.arith(op, AsDouble(a), AsDouble(b))))
    else
      match IntArith(op, a.i, b.i)
      case None => None
      case Some(r) => if FitsInt64(IntResult(op, a.i, b.i)) then Some(Int(r)) else None
  }

  function NativeUnary(op: UnaryOp, a: Value): Option<Value> {
    match (op, a)
    case (NumericPositive, Int(i)) => Some(Int(i))
    case (NumericPositive, Dbl(d)) => Some(Dbl(d))
    case (NumericNegative, Int(i)) => if FitsInt64(0 - i) then Some(Int(0 - i)) else None
    case (NumericNegative, Dbl(d)) => Some(Dbl(DNegate(d)))
    case (BooleanNegation, Bool(b)) => Some(Bool(!b))
    case _ => None
  }

  predicate CompareInts(op: ComparisonOp, a: int, b: int) {
    match op
    case Equal => a == b
    case NotEqual => a != b
    case GreaterThan => a > b
    case GreaterOrEqual => a >= b
    case LessThan => a < b
    case LessOrEqual => a <= b
    case _ => false
  }

  /** C++ comparison of doubles: every comparison with NaN is false except `!=`. */
  predicate CompareDoubles(op: ComparisonOp, a: Double, b: Double) {
    match op
    case Equal => DEqual(a, b)
    case NotEqual => !DEqual(a, b)
    case GreaterThan => DLess(b, a)
    case GreaterOrEqual => DLess(b, a) || DEqual(a, b)
    case LessThan => DLess(a, b)
    case LessOrEqual => DLess(a, b) || DEqual(a, b)
    case _ => false
  }

  /** Comparison of two numbers, booleans or strings; integers are compared exactly. */
  function NativeCompare(op: ComparisonOp, a: Value, b: Value): Option<bool> {
    if IsLogical(op) then
      if a.Bool? && b.Bool? then Some(if op.Or? then a.b || b.b else a.b && b.b) else None
    else if a.Int? && b.Int? then Some(CompareInts(op, a.i, b.i))
    else if IsNumber(a) && IsNumber(b) then Some(CompareDoubles(op, AsDouble(a), AsDouble(b)))
    else if IsArithmetic(op) then None
    else if a.Bool? && b.Bool? then Some((a.b == b.b) == op.Equal?)
    else if a.Str? && b.Str? then Some((a.s == b.s) == op.Equal?)
    else None
  }

  // ---------- Operations on any operands ----------

  /** `native` says that neither operand expression is a variant; then the compiler's own
      arithmetic applies where it is defined, and the run-time library everywhere else. */
  function BinaryValue(h: Host, native: bool, op: BinaryOp, a: Value, b: Value): Option<Value> {
    if native && NativeBinary(h.fpu, op, a, b).Some? then NativeBinary(h.fpu, op, a, b)
    else h.binary(op, a, b)
  }

  function UnaryValue(h: Host, native: bool, op: UnaryOp, a: Value): Option<Value> {
    if native && NativeUnary(op, a).Some? then NativeUnary(op, a) else h.unary(op, a)
  }

  function CompareValue(h: Host, native: bool, op: ComparisonOp, a: Value, b: Value): Option<bool> {
    if native && NativeCompare(op, a, b).Some? then NativeCompare(op, a, b)
    else h.compare(op, a, b)
  }

  /** `get_value_from_hashtable`: null when the key is absent. */
  function Lookup(entries: seq<Entry>, name: string): Value {
    if entries == [] then Null
    else if entries[0].key == Str(name) then entries[0].val
    else Lookup(entries[1..], name)
  }

  /** The value found is that of the first entry with the key. */
  lemma {:induction false} LookupFinds(entries: seq<Entry>, name: string, i: nat)
    requires i < |entries| && entries[i].key == Str(name)
    requires forall k :: 0 <= k < i ==> entries[k].key != Str(name)
    ensures Lookup(entries, name) == entries[i].val
    decreases i
  {
    if i > 0 {
      LookupFinds(entries[1..], name, i - 1);
    }
  }

  predicate DistinctKeys(entries: seq<Entry>) {
    forall i, k :: 0 <= i < k < |entries| ==> entries[i].key != entries[k].key
  }

  predicate HasOwn(entries: seq<Entry>, name: string) {
    exists i :: 0 <= i < |entries| && entries[i].key == Str(name)
  }

  predicate HasAttribute(v: Value, name: string) {
    v.Table? && HasOwn(v.entries, name)
  }

  function GetAttribute(v: Value, name: string): Value {
    if v.Table? then Lookup(v.entries, name) else Null
  }

  /** In an array or an object every key gives its own value as an attribute, wherever the
      entry stands. */
  lemma AttributeOfEntry(v: Value, name: string, i: nat)
    requires v.Table? && DistinctKeys(v.entries) && i < |v.entries| && v.entries[i].key == Str(name)
    ensures HasAttribute(v, name) && GetAttribute(v, name) == v.entries[i].val
  {
    LookupFinds(v.entries, name, i);
  }

  /** An attribute that is there is the value of an entry with that key, and of no other one
      where keys are distinct. */
  lemma AttributeHasEntry(v: Value, name: string) returns (i: nat)
    requires HasAttribute(v, name)
    ensures i < |v.entries| && v.entries[i].key == Str(name) && GetAttribute(v, name) == v.entries[i].val
    ensures DistinctKeys(v.entries) ==> forall k :: 0 <= k < |v.entries| && k != i ==> v.entries[k].key != Str(name)
  {
    i := FirstWithKey(v.entries, name);
    LookupFinds(v.entries, name, i);
  }

  lemma {:induction false} FirstWithKey(entries: seq<Entry>, name: string) returns (i: nat)
    requires HasOwn(entries, name)
    ensures i < |entries| && entries[i].key == Str(name)
    ensures forall k :: 0 <= k < i ==> entries[k].key != Str(name)
    decreases entries
  {
    i := 0;
    if entries[0].key != Str(name) {
      assert HasOwn(entries[1..], name) by {
        var k :| 0 <= k < |entries| && entries[k].key == Str(name);
        assert entries[1..][k - 1] == entries[k];
      }
      var r := FirstWithKey(entries[1..], name);
      i := r + 1;
    }
  }

  /** The text printed for a value: strings are printed as they are. */
  function Show(h: Host, v: Value): string {
    if v.Str? then v.s else h.show(v)
  }

  /** What a `for` iterates over: nothing when the value is not an array or an object. */
  function EntriesOf(v: Value): seq<Entry> {
    if v.Table? then v.entries else []
  }

  predicate IsTrue(h: Host, v: Value) {
    if v.Bool? then v.b else h.truthy(v)
  }

  // ---------- Expressions ----------

  function Eval(h: Host, e: Expr, env: Env): Option<Value> {
    match e
    case Var(x) => env(x)
    case Attr(b, n) =>
      (match Eval(h, b, env)
       case None => None
       case Some(v) => Some(GetAttribute(v, n)))
    case Call(m, args) =>
      (match EvalAll(h, args, env)
       case None => None
       case Some(vs) => h.call(m, vs))
    case DoubleLit(d) => Some(Dbl(d))
    case IntLit(i) => Some(Int(i))
    case BoolLit(b) => Some(Bool(b))
    case StrLit(s) => Some(Str(s))
    case Bin(op, l, r) =>
      var a, b := Eval(h, l, env), Eval(h, r, env);
      if a.None? || b.None? then None
      else BinaryValue(h, !IsVariant(e), op, a.value, b.value)
    case Un(op, s) =>
      var a := Eval(h, s, env);
      if a.None? then None else UnaryValue(h, !IsVariant(s), op, a.value)
    case Cmp(op, l, r) =>
      var a, b := Eval(h, l, env), Eval(h, r, env);
      if a.None? || b.None? then None
      else
        match CompareValue(h, !IsVariant(l) && !IsVariant(r), op, a.value, b.value)
        case None => None
        case Some(c) => Some(Bool(c))
  }

  function EvalAll(h: Host, es: seq<Expr>, env: Env): (r: Option<seq<Value>>)
    ensures r.Some? ==> |r.value| == |es|
  {
    if es == [] then Some([])
    else
      var v, vs := Eval(h, es[0], env), EvalAll(h, es[1..], env);
      if v.None? || vs.None? then None else Some([v.value] + vs.value)
  }

  // ---------- Statements ----------

  /** The text rendered, and whether rendering got to the end. */
  datatype Outcome = Outcome(text: string, ok: bool)

  const NOTHING := Outcome("", true)
  const FAILED := Outcome("", false)

  function Then(a: Outcome, b: Outcome): Outcome {
    if a.ok then Outcome(a.text + b.text, b.ok) else a
  }

  /** The host, and the template files an include can name. */
  datatype World = World(host: Host, files: map<string, AST>, basePath: string)

  function ResolvePath(basePath: string, path: string): string {
    if path != "" && path[0] == '/' then path else basePath + "/" + path
  }

  /** A name that is mapped more than once has its last expression. */
  function FindBinding(m: seq<Binding>, x: string): Option<Expr> {
    if m == [] then None
    else
      var later := FindBinding(m[1..], x);
      if later.Some? then later else if m[0].name == x then Some(m[0].expr) else None
  }

  /** The loop variables of one iteration; the value wins when both have one name. */
  function Bind(env: Env, key: Option<string>, value: Option<string>, entry: Entry): Env {
    (x: string) =>
      if value == Some(x) then Some(entry.val)
      else if key == Some(x) then Some(entry.key)
      else env(x)
  }

  /** The variables an included template sees: the attributes of the scope, or the mapping. */
  function IncludeEnv(h: Host, scope: Option<Expr>, mapping: seq<Binding>, env: Env): Env {
    if scope.Some? then
      var v := Eval(h, scope.value, env);
      (x: string) => if v.None? then None else Some(GetAttribute(v.value, x))
    else
      (x: string) =>
        match FindBinding(mapping, x)
        case None => None
        case Some(e) => Eval(h, e, env)
  }

  /** `depth` bounds the nesting of includes; see Includes.EnoughDepth for why any bound
      above the include graph's height gives the same result. */
  function Render(w: World, depth: nat, t: AST, env: Env): Outcome
    decreases depth, t, 0, 0
  {
    match t
    case Statements(l) => RenderAll(w, depth, l, env)
    case Raw(text) => Outcome(text, true)
    case Print(e) =>
      (match Eval(w.host, e, env)
       case None => FAILED
       case Some(v) => Outcome(Show(w.host, v), true))
    case If(c, a, b) =>
      (match Eval(w.host, c, env)
       case None => FAILED
       case Some(v) => if IsTrue(w.host, v) then Render(w, depth, a, env) else RenderOpt(w, depth, b, env))
    case For(k, v, it, a, b) =>
      (match Eval(w.host, it, env)
       case None => FAILED
       case Some(c) =>
         if EntriesOf(c) == [] then RenderOpt(w, depth, b, env)
         else RenderLoop(w, depth, k, v, EntriesOf(c), a, env))
    case Include(name, s, m) =>
      var path := ResolvePath(w.basePath, name);
      if depth == 0 || path !in w.files then FAILED
      else Render(w, depth - 1, w.files[path], IncludeEnv(w.host, s, m, env))
  }

  function RenderOpt(w: World, depth: nat, o: Option<AST>, env: Env): Outcome
    decreases depth, o, 0, 0
  {
    match o
    case None => NOTHING
    case Some(t) => Render(w, depth, t, env)
  }

  function RenderAll(w: World, depth: nat, l: seq<AST>, env: Env): Outcome
    decreases depth, l, 0, 0
  {
    if l == [] then NOTHING else Then(Render(w, depth, l[0], env), RenderAll(w, depth, l[1..], env))
  }

  function RenderLoop(w: World, depth: nat, k: Option<string>, v: Option<string>,
                      entries: seq<Entry>, body: AST, env: Env): Outcome
    decreases depth, body, 1, |entries|
  {
    if entries == [] then NOTHING
    else
      Then(Render(w, depth, body, Bind(env, k, v, entries[0])),
           RenderLoop(w, depth, k, v, entries[1..], body, env))
  }

  // ---------- Rendering and lists ----------

  lemma ThenAssociates(a: Outcome, b: Outcome, c: Outcome)
    ensures Then(Then(a, b), c) == Then(a, Then(b, c))
  {
  }

  lemma {:induction false} RenderConcat(w: World, depth: nat, a: seq<AST>, b: seq<AST>, env: Env)
    ensures RenderAll(w, depth, a + b, env)
         == Then(RenderAll(w, depth, a, env), RenderAll(w, depth, b, env))
  {
    if a == [] {
      assert a + b == b;
    } else {
      assert (a + b)[1..] == a[1..] + b;
      RenderConcat(w, depth, a[1..], b, env);
    }
  }

  // ---------- Rendering depends only on the variables mentioned ----------

  ghost predicate AgreeOn(e1: Env, e2: Env, names: set<string>) {
    forall x :: x in names ==> e1(x) == e2(x)
  }

  lemma {:induction false} EvalAgrees(h: Host, e: Expr, e1: Env, e2: Env)
    requires AgreeOn(e1, e2, FreeVars(e))
    ensures Eval(h, e, e1) == Eval(h, e, e2)
    decreases e
  {
    match e
    case Attr(b, _) => EvalAgrees(h, b, e1, e2);
    case Call(_, args) => EvalAllAgrees(h, args, e1, e2);
    case Bin(_, l, r) => EvalAgrees(h, l, e1, e2); EvalAgrees(h, r, e1, e2);
    case Un(_, s) => EvalAgrees(h, s, e1, e2);
    case Cmp(_, l, r) => EvalAgrees(h, l, e1, e2); EvalAgrees(h, r, e1, e2);
    case _ =>
  }

  lemma {:induction false} EvalAllAgrees(h: Host, es: seq<Expr>, e1: Env, e2: Env)
    requires AgreeOn(e1, e2, FreeVarsAll(es))
    ensures EvalAll(h, es, e1) == EvalAll(h, es, e2)
    decreases es
  {
    if es != [] {
      EvalAgrees(h, es[0], e1, e2);
      EvalAllAgrees(h, es[1..], e1, e2);
    }
  }

  lemma {:induction false} RenderAgrees(w: World, depth: nat, t: AST, e1: Env, e2: Env)
    requires AgreeOn(e1, e2, Mentions(t))
    ensures Render(w, depth, t, e1) == Render(w, depth, t, e2)
    decreases depth, t, 0, 0
  {
    match t
    case Statements(l) => RenderAllAgrees(w, depth, l, e1, e2);
    case Raw(_) =>
    case Print(e) => EvalAgrees(w.host, e, e1, e2);
    case If(c, a, b) =>
      EvalAgrees(w.host, c, e1, e2);
      RenderAgrees(w, depth, a, e1, e2);
      RenderOptAgrees(w, depth, b, e1, e2);
    case For(k, v, it, a, b) =>
      EvalAgrees(w.host, it, e1, e2);
      RenderOptAgrees(w, depth, b, e1, e2);
      var c := Eval(w.host, it, e1);
      if c.Some? {
        RenderLoopAgrees(w, depth, k, v, EntriesOf(c.value), a, e1, e2);
      }
    case Include(name, s, m) =>
      var path := ResolvePath(w.basePath, name);
      if depth > 0 && path in w.files {
        IncludeEnvAgrees(w.host, s, m, e1, e2);
        RenderAgrees(w, depth - 1, w.files[path], IncludeEnv(w.host, s, m, e1), IncludeEnv(w.host, s, m, e2));
      }
  }

  lemma {:induction false} RenderOptAgrees(w: World, depth: nat, o: Option<AST>, e1: Env, e2: Env)
    requires AgreeOn(e1, e2, MentionsOpt(o))
    ensures RenderOpt(w, depth, o, e1) == RenderOpt(w, depth, o, e2)
    decreases depth, o, 0, 0
  {
    if o.Some? {
      RenderAgrees(w, depth, o.value, e1, e2);
    }
  }

  lemma {:induction false} RenderAllAgrees(w: World, depth: nat, l: seq<AST>, e1: Env, e2: Env)
    requires AgreeOn(e1, e2, MentionsAll(l))
    ensures RenderAll(w, depth, l, e1) == RenderAll(w, depth, l, e2)
    decreases depth, l, 0, 0
  {
    if l != [] {
      RenderAgrees(w, depth, l[0], e1, e2);
      RenderAllAgrees(w, depth, l[1..], e1, e2);
    }
  }

  lemma {:induction false} RenderLoopAgrees(w: World, depth: nat, k: Option<string>, v: Option<string>,
                                            entries: seq<Entry>, body: AST, e1: Env, e2: Env)
    requires AgreeOn(e1, e2, Mentions(body))
    ensures RenderLoop(w, depth, k, v, entries, body, e1) == RenderLoop(w, depth, k, v, entries, body, e2)
    decreases depth, body, 1, |entries|
  {
    if entries != [] {
      RenderAgrees(w, depth, body, Bind(e1, k, v, entries[0]), Bind(e2, k, v, entries[0]));
      RenderLoopAgrees(w, depth, k, v, entries[1..], body, e1, e2);
    }
  }

  lemma IncludeEnvAgrees(h: Host, s: Option<Expr>, m: seq<Binding>, e1: Env, e2: Env)
    requires AgreeOn(e1, e2, (if s.Some? then FreeVars(s.value) else {}) + MentionsBindings(m))
    ensures forall x :: IncludeEnv(h, s, m, e1)(x) == IncludeEnv(h, s, m, e2)(x)
  {
    forall x
      ensures IncludeEnv(h, s, m, e1)(x) == IncludeEnv(h, s, m, e2)(x)
    {
      if s.Some? {
        EvalAgrees(h, s.value, e1, e2);
      } else {
        FoundBinding(m, x);
        if FindBinding(m, x).Some? {
          EvalAgrees(h, FindBinding(m, x).value, e1, e2);
        }
      }
    }
  }

  /** The expression found is that of the last binding with the name. */
  lemma {:induction false} LastBindingFound(m: seq<Binding>, x: string, i: nat)
    requires i < |m| && m[i].name == x && forall k :: i < k < |m| ==> m[k].name != x
    ensures FindBinding(m, x) == Some(m[i].expr)
    decreases m
  {
    FoundBinding(m[1..], x);
    if i > 0 {
      assert m[1..][i - 1] == m[i];
      LastBindingFound(m[1..], x, i - 1);
    } else {
      assert forall k :: 0 <= k < |m[1..]| ==> m[1..][k] == m[k + 1];
    }
  }

  lemma {:induction false} FoundBinding(m: seq<Binding>, x: string)
    ensures FindBinding(m, x).Some? ==> FreeVars(FindBinding(m, x).value) <= MentionsBindings(m)
    ensures FindBinding(m, x).Some? <==> exists i :: 0 <= i < |m| && m[i].name == x
  {
    if m != [] {
      FoundBinding(m[1..], x);
      assert forall i :: 0 < i < |m| ==> m[i] == m[1..][i - 1];
    }
  }
}
