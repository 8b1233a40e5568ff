/** JavaScript engines: what they add to a run-time library, and when an expression means to
    an engine what it means to the reference interpreter. */
module Engines {
  import opened Results
  import opened Doubles
  import opened Ast
  import opened Semantics

  /** An engine's operations and helpers, the properties that values have besides the own ones
      of objects (undefined where there is none), the keys that `for`-`in` visits, own and
      inherited ones, the own properties of values that are no objects (the characters of a
      string), and the double that a decimal is read as.  Null stands for null and undefined. */
  datatype Engine = Engine(
    lib: Host,
    inherited: (Value, string) -> Value,
    keys: Value -> seq<Value>,
    elements: Value -> seq<Entry>,
    nearest: real -> Double)

  /** What the engine reads in the place of a literal.  Of a double `std::to_string` writes six
      decimals, or `nan` and `inf`, which name nothing; integers are read as doubles. */
  function Read(j: Engine, v: Value): Option<Value> {
    match v
    case Dbl(Finite(x)) =>
      var d := SixDecimals(x);
      Some(Dbl(if d == 0.0 && x < 0.0 then NegZero else j.nearest(d)))
    case Dbl(NegZero) => Some(v)
    case Dbl(_) => None
    case Int(i) => Some(Int(RoundInt(i)))
    case _ => Some(v)
  }

  /** `v['name']`, which throws on null and undefined. */
  function Property(j: Engine, v: Value, name: string): Option<Value> {
    if v.Null? then None
    else if HasAttribute(v, name) then Some(GetAttribute(v, name))
    else Some(j.inherited(v, name))
  }

  // ---------- Properties in loops ----------

  function Own(j: Engine, v: Value): seq<Entry> {
    if v.Table? then v.entries else j.elements(v)
  }

  /** The own property with the key, if there is one: `hasOwnProperty` and `v[key]`. */
  function OwnValue(entries: seq<Entry>, key: Value): Option<Value> {
    if entries == [] then None
    else if entries[0].key == key then Some(entries[0].val)
    else OwnValue(entries[1..], key)
  }

  /** The keys that `for (var key in v)` visits: of null and undefined, none. */
  function Keys(j: Engine, v: Value): seq<Value> {
    if v.Null? then [] else j.keys(v)
  }

  /** What is left of the keys after the `hasOwnProperty` test, with the values. */
  function Visited(j: Engine, v: Value, keys: seq<Value>): seq<Entry> {
    if keys == [] then []
    else
      var value, rest := OwnValue(Own(j, v), keys[0]), Visited(j, v, keys[1..]);
      if value.Some? then [Entry(keys[0], value.value)] + rest else rest
  }

  /** The elements of v in the order in which an emitted loop gets them. */
  function Enumerate(j: Engine, v: Value): seq<Entry> {
    Visited(j, v, Keys(j, v))
  }

  // ---------- Logical operators ----------

  /** `&&` and `||` decide on the left operand alone. */
  predicate Skips(h: Host, op: ComparisonOp, v: Value) {
    if op.Or? then IsTrue(h, v) else !IsTrue(h, v)
  }

  function Combined(op: ComparisonOp, a: bool, b: bool): bool {
    if op.Or? then a || b else a && b
  }

  // ---------- When an engine agrees with the interpreter ----------

  /** In the environment the engine computes the interpreter's value, with h as the library:
      literals are read as they are; each operation has the same result on the operands it
      meets; attributes are taken of values other than null, and not of the engine's own
      making; and an operand of `&&` or `||` is a boolean, because it may be the result. */
  predicate ValueAgrees(j: Engine, h: Host, e: Expr, env: Env)
    decreases e, 1
  {
    match e
    case DoubleLit(d) => Read(j, Dbl(d)) == Some(Dbl(d))
    case IntLit(i) => Read(j, Int(i)) == Some(Int(i))
    case Attr(b, n) =>
      && ValueAgrees(j, h, b, env)
      && var v := Eval(h, b, env);
         (v.Some? ==> Property(j, v.value, n) == Some(GetAttribute(v.value, n)))
    case Call(m, args) =>
      && AllAgree(j, h, args, env)
      && var vs := EvalAll(h, args, env);
         (vs.Some? ==> j.lib.call(m, vs.value) == h.call(m, vs.value))
    case Bin(op, l, r) =>
      && ValueAgrees(j, h, l, env) && ValueAgrees(j, h, r, env)
      && var a, b := Eval(h, l, env), Eval(h, r, env);
         (a.Some? && b.Some? ==>
          j.lib.binary(op, a.value, b.value) == BinaryValue(h, !IsVariant(e), op, a.value, b.value))
    case Un(op, s) =>
      var a := Eval(h, s, env);
      if op.BooleanNegation? then
        && TestAgrees(j, h, s, env)
        && (a.Some? ==> UnaryValue(h, !IsVariant(s), op, a.value) == Some(Bool(!IsTrue(h, a.value))))
      else
        && ValueAgrees(j, h, s, env)
        && (a.Some? ==> j.lib.unary(op, a.value) == UnaryValue(h, !IsVariant(s), op, a.value))
    case Cmp(op, l, r) =>
      var a, b := Eval(h, l, env), Eval(h, r, env);
      if IsLogical(op) then
        && LogicalAgrees(j, h, op, l, r, env)
        && ValueAgrees(j, h, l, env)
        && (a.Some? ==>
              && a.value.Bool?
              && (Skips(h, op, a.value) || (ValueAgrees(j, h, r, env) && (b.Some? ==> b.value.Bool?))))
      else
        && ValueAgrees(j, h, l, env) && ValueAgrees(j, h, r, env)
        && (a.Some? && b.Some? ==>
              j.lib.compare(op, a.value, b.value)
              == CompareValue(h, !IsVariant(l) && !IsVariant(r), op, a.value, b.value))
    case _ => true
  }

  predicate AllAgree(j: Engine, h: Host, es: seq<Expr>, env: Env)
    decreases es, 0
  {
    if es == [] then true else ValueAgrees(j, h, es[0], env) && AllAgree(j, h, es[1..], env)
  }

  /** The engine decides a condition as the interpreter does. */
  predicate TestAgrees(j: Engine, h: Host, e: Expr, env: Env)
    decreases e, 2
  {
    if e.Cmp? && IsLogical(e.cop) then LogicalAgrees(j, h, e.cop, e.left, e.right, env)
    else
      && ValueAgrees(j, h, e, env)
      && var v := Eval(h, e, env);
         (v.Some? ==> IsTrue(j.lib, v.value) == IsTrue(h, v.value))
  }

  /** A right operand that the engine skips does not fail, and the interpreter combines the
      truth of both. */
  predicate LogicalAgrees(j: Engine, h: Host, op: ComparisonOp, l: Expr, r: Expr, env: Env)
    decreases Cmp(op, l, r), 0
  {
    && TestAgrees(j, h, l, env)
    && var a, b := Eval(h, l, env), Eval(h, r, env);
       a.Some? ==>
         && (if Skips(h, op, a.value) then b.Some? else TestAgrees(j, h, r, env))
         && (b.Some? ==>
               CompareValue(h, !IsVariant(l) && !IsVariant(r), op, a.value, b.value)
               == Some(Combined(op, IsTrue(h, a.value), IsTrue(h, b.value))))
  }

  // ---------- All through a rendering ----------

  /** What the value of an expression is wanted for. */
  datatype Role = Printed | Tested | Iterated

  /** p holds of every expression that rendering the tree evaluates, in the environment in
      which it is evaluated. */
  predicate Throughout(w: World, p: (Role, Expr, Env) -> bool, t: AST, env: Env)
    decreases t, 0, 0
  {
    match t
    case Statements(l) => ThroughoutAll(w, p, l, env)
    case Raw(_) => true
    case Print(e) => p(Printed, e, env)
    case If(c, a, b) =>
      && p(Tested, c, env)
      && var v := Eval(w.host, c, env);
         (v.Some? ==> if IsTrue(w.host, v.value) then Throughout(w, p, a, env) else ThroughoutOpt(w, p, b, env))
    case For(k, v, it, a, b) =>
      && p(Iterated, it, env)
      && var c := Eval(w.host, it, env);
         (c.Some? ==>
            if EntriesOf(c.value) == [] then ThroughoutOpt(w, p, b, env)
            else ThroughoutLoop(w, p, k, v, EntriesOf(c.value), a, env))
    case Include(_, _, _) => false
  }

  predicate ThroughoutOpt(w: World, p: (Role, Expr, Env) -> bool, o: Option<AST>, env: Env)
    decreases o, 0, 0
  {
    match o
    case None => true
    case Some(t) => Throughout(w, p, t, env)
  }

  predicate ThroughoutAll(w: World, p: (Role, Expr, Env) -> bool, l: seq<AST>, env: Env)
    decreases l, 0, 0
  {
    if l == [] then true
    else Throughout(w, p, l[0], env) && (Render(w, 0, l[0], env).ok ==> ThroughoutAll(w, p, l[1..], env))
  }

  predicate ThroughoutLoop(w: World, p: (Role, Expr, Env) -> bool, k: Option<string>, v: Option<string>,
                           entries: seq<Entry>, body: AST, env: Env)
    decreases body, 1, |entries|
  {
    if entries == [] then true
    else
      var inner := Bind(env, k, v, entries[0]);
      && Throughout(w, p, body, inner)
      && (Render(w, 0, body, inner).ok ==> ThroughoutLoop(w, p, k, v, entries[1..], body, env))
  }

  /** The engine makes of an expression what the interpreter does with library h. */
  function Agreement(j: Engine, h: Host): (Role, Expr, Env) -> bool {
    (role: Role, e: Expr, env: Env) =>
      var v := Eval(h, e, env);
      match role
      case Printed => ValueAgrees(j, h, e, env) && (v.Some? ==> Show(j.lib, v.value) == Show(h, v.value))
      case Tested => TestAgrees(j, h, e, env)
      case Iterated => ValueAgrees(j, h, e, env) && (v.Some? ==> Enumerate(j, v.value) == EntriesOf(v.value))
  }
}
