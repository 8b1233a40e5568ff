/** Template trees: expressions, statements, and the two notions of static type that the
    parser and the LLVM backend use. */
module Ast {
  import opened Results
  import opened Doubles

  // ---------- Expressions ----------

  datatype BinaryOp = Addition | Subtraction | Multiplication | Division | Modulus

  datatype UnaryOp = NumericPositive | NumericNegative | BooleanNegation

  datatype ComparisonOp =
    | Equal | NotEqual | GreaterThan | GreaterOrEqual | LessThan | LessOrEqual | Or | And

  datatype Expr =
    | Var(name: string)
    | Attr(base: Expr, attr: string)
    | Call(callee: string, args: seq<Expr>)
    | DoubleLit(d: Double)
    | IntLit(i: int)
    | BoolLit(b: bool)
    | StrLit(s: string)
    | Bin(bop: BinaryOp, left: Expr, right: Expr)
    | Un(uop: UnaryOp, sub: Expr)
    | Cmp(cop: ComparisonOp, left: Expr, right: Expr)

  predicate IsLiteral(e: Expr) {
    e.DoubleLit? || e.IntLit? || e.BoolLit? || e.StrLit?
  }

  predicate IsNumericLiteral(e: Expr) {
    e.DoubleLit? || e.IntLit?
  }

  predicate IsArithmetic(op: ComparisonOp) {
    op.GreaterThan? || op.GreaterOrEqual? || op.LessThan? || op.LessOrEqual?
  }

  predicate IsLogical(op: ComparisonOp) {
    op.Or? || op.And?
  }

  /** Number of nodes, the measure by which tree walks terminate. */
  function Size(e: Expr): (n: nat)
    ensures n >= 1
  {
    match e
    case Attr(b, _) => 1 + Size(b)
    case Call(_, args) => 1 + SizeAll(args)
    case Bin(_, l, r) => 1 + Size(l) + Size(r)
    case Un(_, s) => 1 + Size(s)
    case Cmp(_, l, r) => 1 + Size(l) + Size(r)
    case _ => 1
  }

  function SizeAll(es: seq<Expr>): nat {
    if es == [] then 0 else Size(es[0]) + SizeAll(es[1..])
  }

  /** The variables an expression mentions. */
  function FreeVars(e: Expr): set<string> {
    match e
    case Var(x) => {x}
    case Attr(b, _) => FreeVars(b)
    case Call(_, args) => FreeVarsAll(args)
    case Bin(_, l, r) => FreeVars(l) + FreeVars(r)
    case Un(_, s) => FreeVars(s)
    case Cmp(_, l, r) => FreeVars(l) + FreeVars(r)
    case _ => {}
  }

  function FreeVarsAll(es: seq<Expr>): set<string> {
    if es == [] then {} else FreeVars(es[0]) + FreeVarsAll(es[1..])
  }

  // ---------- Types of expressions ----------

  datatype ValueType = DoubleType | IntegerType | BooleanType | StringType | VariantType

  /** `Expression::valueType()`, the type the parser checks operands against. */
  function TypeOf(e: Expr): ValueType {
    match e
    case Var(_) => VariantType
    case Attr(_, _) => VariantType
    case Call(_, _) => VariantType
    case DoubleLit(_) => DoubleType
    case IntLit(_) => IntegerType
    case BoolLit(_) => BooleanType
    case StrLit(_) => StringType
    case Bin(_, l, r) =>
      var lt, rt := TypeOf(l), TypeOf(r);
      if lt.VariantType? || rt.VariantType? then VariantType
      else if lt.DoubleType? || rt.DoubleType? then DoubleType
      else if lt.IntegerType? && rt.IntegerType? then IntegerType
      else DoubleType
    case Un(op, s) =>
      if op.BooleanNegation? then BooleanType
      else
        var st := TypeOf(s);
        if st.VariantType? || st.DoubleType? || st.IntegerType? then st else DoubleType
    case Cmp(_, _, _) => BooleanType
  }

  /** Whether the compiled expression is a variant, that is, computed by the run-time
      library.  Unlike TypeOf, negating a variant is a variant again. */
  predicate IsVariant(e: Expr) {
    match e
    case Var(_) => true
    case Attr(_, _) => true
    case Call(_, _) => true
    case Bin(_, l, r) => IsVariant(l) || IsVariant(r)
    case Un(_, s) => IsVariant(s)
    case _ => false
  }

  predicate NumericOrVariant(e: Expr) {
    TypeOf(e).IntegerType? || TypeOf(e).DoubleType? || TypeOf(e).VariantType?
  }

  predicate BooleanOrVariant(e: Expr) {
    TypeOf(e).BooleanType? || TypeOf(e).VariantType?
  }

  /** The parser's assertions on the operands of an operation. */
  predicate TypedOperands(e: Expr) {
    match e
    case Bin(_, l, r) => NumericOrVariant(l) && NumericOrVariant(r)
    case Un(op, s) => if op.BooleanNegation? then BooleanOrVariant(s) else NumericOrVariant(s)
    case Cmp(op, l, r) =>
      && (IsArithmetic(op) ==> NumericOrVariant(l) && NumericOrVariant(r))
      && (IsLogical(op) ==> BooleanOrVariant(l) && BooleanOrVariant(r))
    case _ => true
  }

  /** What the parser guarantees of every expression it builds; its integer literals come from
      `atol`. */
  predicate WellTyped(e: Expr) {
    TypedOperands(e) &&
    match e
    case IntLit(i) => FitsInt64(i)
    case Attr(b, _) => WellTyped(b)
    case Call(_, args) => WellTypedAll(args)
    case Bin(_, l, r) => WellTyped(l) && WellTyped(r)
    case Un(_, s) => WellTyped(s)
    case Cmp(_, l, r) => WellTyped(l) && WellTyped(r)
    case _ => true
  }

  predicate WellTypedAll(es: seq<Expr>) {
    if es == [] then true else WellTyped(es[0]) && WellTypedAll(es[1..])
  }

  /** The same where it matters: an operation with a variant among its operands is left to the
      run-time library, whatever the other one is. */
  predicate NativelyTyped(e: Expr) {
    match e
    case IntLit(i) => FitsInt64(i)
    case Attr(b, _) => NativelyTyped(b)
    case Call(_, args) => NativelyTypedAll(args)
    case Bin(_, l, r) => NativelyTyped(l) && NativelyTyped(r) && (IsVariant(l) || IsVariant(r) || TypedOperands(e))
    case Un(_, s) => NativelyTyped(s) && (IsVariant(s) || TypedOperands(e))
    case Cmp(_, l, r) => NativelyTyped(l) && NativelyTyped(r) && (IsVariant(l) || IsVariant(r) || TypedOperands(e))
    case _ => true
  }

  predicate NativelyTypedAll(es: seq<Expr>) {
    if es == [] then true else NativelyTyped(es[0]) && NativelyTypedAll(es[1..])
  }

  lemma {:induction false} WellTypedNatively(e: Expr)
    requires WellTyped(e)
    ensures NativelyTyped(e)
    decreases e
  {
    match e
    case Attr(b, _) => WellTypedNatively(b);
    case Call(_, args) => WellTypedAllNatively(args);
    case Bin(_, l, r) =>
      WellTypedNatively(l);
      WellTypedNatively(r);
    case Un(_, s) => WellTypedNatively(s);
    case Cmp(_, l, r) =>
      WellTypedNatively(l);
      WellTypedNatively(r);
    case _ =>
  }

  lemma {:induction false} WellTypedAllNatively(es: seq<Expr>)
    requires WellTypedAll(es)
    ensures NativelyTypedAll(es)
    decreases es
  {
    if es != [] {
      WellTypedNatively(es[0]);
      WellTypedAllNatively(es[1..]);
    }
  }

  // ---------- Statements ----------

  /** One `name = expression` of an include's variable mapping. */
  datatype Binding = Binding(name: string, expr: Expr)

  datatype AST =
    | Statements(list: seq<AST>)
    | Raw(text: string)
    | Print(expr: Expr)
    | If(cond: Expr, thenBody: AST, elseBody: Option<AST>)
    | For(key: Option<string>, value: Option<string>, iterable: Expr, body: AST, elseBody: Option<AST>)
    | Include(name: string, scope: Option<Expr>, mapping: seq<Binding>)

  /** Number of statement nodes. */
  function Nodes(t: AST): (n: nat)
    ensures n >= 1
  {
    match t
    case Statements(l) => 1 + NodesAll(l)
    case If(_, a, b) => 1 + Nodes(a) + NodesOpt(b)
    case For(_, _, _, a, b) => 1 + Nodes(a) + NodesOpt(b)
    case _ => 1
  }

  function NodesOpt(o: Option<AST>): nat {
    match o
    case None => 0
    case Some(t) => Nodes(t)
  }

  function NodesAll(l: seq<AST>): nat {
    if l == [] then 0 else Nodes(l[0]) + NodesAll(l[1..])
  }

  /** The names a `for` binds in its body. */
  function Binders(key: Option<string>, value: Option<string>): set<string> {
    (if key.Some? then {key.value} else {}) + (if value.Some? then {value.value} else {})
  }

  /** Every variable mentioned by an expression of the tree, bound or not. */
  function Mentions(t: AST): set<string> {
    match t
    case Statements(l) => MentionsAll(l)
    case Raw(_) => {}
    case Print(e) => FreeVars(e)
    case If(c, a, b) => FreeVars(c) + Mentions(a) + MentionsOpt(b)
    case For(_, _, it, a, b) => FreeVars(it) + Mentions(a) + MentionsOpt(b)
    case Include(_, s, m) => (if s.Some? then FreeVars(s.value) else {}) + MentionsBindings(m)
  }

  function MentionsOpt(o: Option<AST>): set<string> {
    match o
    case None => {}
    case Some(t) => Mentions(t)
  }

  function MentionsAll(l: seq<AST>): set<string> {
    if l == [] then {} else Mentions(l[0]) + MentionsAll(l[1..])
  }

  function MentionsBindings(m: seq<Binding>): set<string> {
    if m == [] then {} else FreeVars(m[0].expr) + MentionsBindings(m[1..])
  }

  /** All expressions of an include-free tree. */
  function Expressions(t: AST): set<Expr> {
    match t
    case Statements(l) => ExpressionsAll(l)
    case Print(e) => {e}
    case If(c, a, b) => {c} + Expressions(a) + ExpressionsOpt(b)
    case For(_, _, it, a, b) => {it} + Expressions(a) + ExpressionsOpt(b)
    case _ => {}
  }

  function ExpressionsOpt(o: Option<AST>): set<Expr> {
    match o
    case None => {}
    case Some(t) => Expressions(t)
  }

  function ExpressionsAll(l: seq<AST>): set<Expr> {
    if l == [] then {} else Expressions(l[0]) + ExpressionsAll(l[1..])
  }

  predicate IncludeFree(t: AST) {
    match t
    case Statements(l) => IncludeFreeAll(l)
    case If(_, a, b) => IncludeFree(a) && IncludeFreeOpt(b)
    case For(_, _, _, a, b) => IncludeFree(a) && IncludeFreeOpt(b)
    case Include(_, _, _) => false
    case _ => true
  }

  predicate IncludeFreeOpt(o: Option<AST>) {
    match o
    case None => true
    case Some(t) => IncludeFree(t)
  }

  predicate IncludeFreeAll(l: seq<AST>) {
    if l == [] then true else IncludeFree(l[0]) && IncludeFreeAll(l[1..])
  }

  // ---------- What a pass can report ----------

  /** The exceptions of the passes, and the two ways in which one ends in undefined
      behaviour: signed overflow, and a cast to or a use of a node that is not there. */
  datatype PassError =
    | DivisionByZero
    | ModuloByZero
    | IntegerOverflow
    | InvalidCast
    | NullArgument
    | MissingVariable(file: string, name: string)
    | MissingFile(path: string)
    | IncludesTooDeep

  // ---------- Lists of statements ----------

  lemma {:induction false} MentionsConcat(a: seq<AST>, b: seq<AST>)
    ensures MentionsAll(a + b) == MentionsAll(a) + MentionsAll(b)
  {
    if a == [] {
      assert a + b == b;
    } else {
      assert (a + b)[1..] == a[1..] + b;
      MentionsConcat(a[1..], b);
    }
  }

  lemma {:induction false} IncludeFreeConcat(a: seq<AST>, b: seq<AST>)
    ensures IncludeFreeAll(a + b) == (IncludeFreeAll(a) && IncludeFreeAll(b))
  {
    if a == [] {
      assert a + b == b;
    } else {
      assert (a + b)[1..] == a[1..] + b;
      IncludeFreeConcat(a[1..], b);
    }
  }
}
