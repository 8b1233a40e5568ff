/** The expression walker and the three passes that plug into it.  A pass sees a node before
    its children are walked; the walker dispatches again when the node changed its kind and
    walks the children, which for the folding pass are already folded. */
module ExpressionPasses {
  import opened Results
  import opened Ast
  import opened Semantics
  import opened Folding

  datatype ExprPass =
    | FoldConstants(fpu: FPU)
    | ReplaceVariables(file: string, replacements: seq<Binding>)
    | PrependScope(scope: Expr)

  // ---------- Copying expressions ----------

  /** `Expression::clone()`.  The copy of an argument list starts with as many null pointers
      as there are arguments, and every walk over such a call dereferences them. */
  function Clone(e: Expr): Folded {
    match e
    case Attr(b, n) => var b' :- Clone(b); Ok(Attr(b', n))
    case Call(m, args) => if |args| == 0 then Ok(e) else Err(NullArgument)
    case Bin(op, l, r) => var l' :- Clone(l); var r' :- Clone(r); Ok(Bin(op, l', r'))
    case Un(op, s) => var s' :- Clone(s); Ok(Un(op, s'))
    case Cmp(op, l, r) => var l' :- Clone(l); var r' :- Clone(r); Ok(Cmp(op, l', r'))
    case _ => Ok(e)
  }

  predicate PassesArguments(e: Expr) {
    match e
    case Attr(b, _) => PassesArguments(b)
    case Call(_, args) => args != []
    case Bin(_, l, r) => PassesArguments(l) || PassesArguments(r)
    case Un(_, s) => PassesArguments(s)
    case Cmp(_, l, r) => PassesArguments(l) || PassesArguments(r)
    case _ => false
  }

  /** A clone is either the same expression or unusable, the latter exactly when a call with
      arguments is being copied. */
  lemma {:induction false} CloneIsExact(e: Expr)
    ensures Clone(e) == if PassesArguments(e) then Err(NullArgument) else Ok(e)
  {
    match e
    case Attr(b, _) => CloneIsExact(b);
    case Bin(_, l, r) => CloneIsExact(l); CloneIsExact(r);
    case Un(_, s) => CloneIsExact(s);
    case Cmp(_, l, r) => CloneIsExact(l); CloneIsExact(r);
    case _ =>
  }

  /** The loop behind the broken copy: the list is created with its final size and then
      appended to. */
  method CloneExpressionList(exprs: seq<Expr>) returns (clones: seq<Option<Folded>>)
    ensures |clones| == 2 * |exprs|
    ensures forall i :: 0 <= i < |exprs| ==> clones[i] == None && clones[|exprs| + i] == Some(Clone(exprs[i]))
  {
    clones := seq(|exprs|, _ => None);
    for i := 0 to |exprs|
      invariant |clones| == |exprs| + i
      invariant forall j :: 0 <= j < |exprs| ==> clones[j] == None
      invariant forall j :: 0 <= j < i ==> clones[|exprs| + j] == Some(Clone(exprs[j]))
    {
      clones := clones + [Some(Clone(exprs[i]))];
    }
  }

  // ---------- The walker ----------

  function Visit(p: ExprPass, e: Expr): (r: Folded)
    ensures p.FoldConstants? && r.Ok? ==> Size(r.value) <= Size(e)
    decreases Size(e), 1
  {
    match e
    case Var(x) => ProcessVariable(p, x)
    case Attr(b, n) => var b' :- Visit(p, b); Ok(Attr(b', n))
    case Call(m, args) => var args' :- VisitAll(p, args); Ok(Call(m, args'))
    case Bin(_, _, _) =>
      var n :- ProcessBinary(p, e);
      if !n.Bin? then Visit(p, n)
      else
        var l' :- Visit(p, n.left);
        var r' :- Visit(p, n.right);
        Ok(Bin(n.bop, l', r'))
    case Un(_, _) =>
      var n :- ProcessUnary(p, e);
      if !n.Un? then Visit(p, n)
      else
        var s' :- Visit(p, n.sub);
        Ok(Un(n.uop, s'))
    case Cmp(_, _, _) =>
      var n :- ProcessComparison(p, e);
      if !n.Cmp? then Visit(p, n)
      else
        var l' :- Visit(p, n.left);
        var r' :- Visit(p, n.right);
        Ok(Cmp(n.cop, l', r'))
    case _ => Ok(e)
  }

  function VisitAll(p: ExprPass, es: seq<Expr>): (r: Result<seq<Expr>, PassError>)
    ensures r.Ok? ==> |r.value| == |es|
    ensures p.FoldConstants? && r.Ok? ==> SizeAll(r.value) <= SizeAll(es)
    decreases SizeAll(es), 2, |es|
  {
    if es == [] then Ok([])
    else
      var e' :- Visit(p, es[0]);
      var es' :- VisitAll(p, es[1..]);
      Ok([e'] + es')
  }

  /** A replacement is returned as it is: the walker does not enter it. */
  function ProcessVariable(p: ExprPass, x: string): (r: Folded)
    ensures p.FoldConstants? ==> r == Ok(Var(x))
  {
    match p
    case FoldConstants(_) => Ok(Var(x))
    case ReplaceVariables(file, replacements) =>
      (match FindBinding(replacements, x)
       case None => Err(MissingVariable(file, x))
       case Some(e) => Clone(e))
    case PrependScope(scope) => var s :- Clone(scope); Ok(Attr(s, x))
  }

  function ProcessBinary(p: ExprPass, e: Expr): (r: Folded)
    requires e.Bin?
    ensures r.Ok? ==> r.value.Bin? || IsLiteral(r.value)
    ensures p.FoldConstants? && r.Ok? ==> Size(r.value) <= Size(e)
    ensures !p.FoldConstants? ==> r == Ok(e)
    decreases Size(e), 0
  {
    if !p.FoldConstants? then Ok(e)
    else
      var l' :- if IsNumericLiteral(e.left) then Ok(e.left) else Visit(p, e.left);
      var r' :- if IsNumericLiteral(e.right) then Ok(e.right) else Visit(p, e.right);
      FoldBinary(p.fpu, e.bop, l', r')
  }

  function ProcessUnary(p: ExprPass, e: Expr): (r: Folded)
    requires e.Un?
    ensures r.Ok? ==> r.value.Un? || IsLiteral(r.value)
    ensures p.FoldConstants? && r.Ok? ==> Size(r.value) <= Size(e)
    ensures !p.FoldConstants? ==> r == Ok(e)
    decreases Size(e), 0
  {
    if !p.FoldConstants? then Ok(e)
    else
      var done := if e.uop.BooleanNegation? then e.sub.BoolLit? else IsNumericLiteral(e.sub);
      var s' :- if done then Ok(e.sub) else Visit(p, e.sub);
      FoldUnary(e.uop, s')
  }

  function ProcessComparison(p: ExprPass, e: Expr): (r: Folded)
    requires e.Cmp?
    ensures r.Ok? ==> r.value.Cmp? || IsLiteral(r.value)
    ensures p.FoldConstants? && r.Ok? ==> Size(r.value) <= Size(e)
    ensures !p.FoldConstants? ==> r == Ok(e)
    decreases Size(e), 0
  {
    if !p.FoldConstants? then Ok(e)
    else
      var l' :- if IsLiteral(e.left) then Ok(e.left) else Visit(p, e.left);
      var r' :- if IsLiteral(e.right) then Ok(e.right) else Visit(p, e.right);
      FoldComparison(e.cop, l', r')
  }

  // ---------- The folding pass is a bottom-up fold ----------

  /** Folding before the walk and walking the folded children again computes the bottom-up
      fold, including which error is reported first: the second visit changes nothing. */
  lemma {:induction false} VisitIsFold(fpu: FPU, e: Expr)
    ensures Visit(FoldConstants(fpu), e) == Fold(fpu, e)
    decreases Size(e), 1
  {
    match e
    case Attr(b, _) => VisitIsFold(fpu, b);
    case Call(_, args) => VisitAllIsFoldAll(fpu, args);
    case Bin(op, l, r) => VisitBinaryIsFold(fpu, op, l, r);
    case Un(op, s) => VisitUnaryIsFold(fpu, op, s);
    case Cmp(op, l, r) => VisitComparisonIsFold(fpu, op, l, r);
    case _ =>
  }

  lemma {:induction false} VisitAllIsFoldAll(fpu: FPU, es: seq<Expr>)
    ensures VisitAll(FoldConstants(fpu), es) == FoldAll(fpu, es)
    decreases SizeAll(es), 2, |es|
  {
    if es != [] {
      VisitIsFold(fpu, es[0]);
      VisitAllIsFoldAll(fpu, es[1..]);
    }
  }

  lemma ProcessBinaryIsFold(fpu: FPU, op: BinaryOp, l: Expr, r: Expr)
    requires Visit(FoldConstants(fpu), l) == Fold(fpu, l)
    requires Visit(FoldConstants(fpu), r) == Fold(fpu, r)
    ensures ProcessBinary(FoldConstants(fpu), Bin(op, l, r)) == Fold(fpu, Bin(op, l, r))
  {
  }

  lemma SizeOfPair(bop: BinaryOp, cop: ComparisonOp, l: Expr, r: Expr)
    ensures Size(Bin(bop, l, r)) == Size(Cmp(cop, l, r)) == 1 + Size(l) + Size(r)
  {
  }

  lemma {:induction false} VisitBinaryIsFold(fpu: FPU, op: BinaryOp, l: Expr, r: Expr)
    ensures Visit(FoldConstants(fpu), Bin(op, l, r)) == Fold(fpu, Bin(op, l, r))
    decreases Size(Bin(op, l, r)), 0
  {
    hide Size;
    SizeOfPair(op, Or, l, r);
    VisitIsFold(fpu, l);
    VisitIsFold(fpu, r);
    ProcessBinaryIsFold(fpu, op, l, r);
    var r' := Fold(fpu, Bin(op, l, r));
    if r'.Ok? && r'.value.Bin? {
      SecondVisit(fpu, l);
      SecondVisit(fpu, r);
    }
  }

  lemma ProcessUnaryIsFold(fpu: FPU, op: UnaryOp, s: Expr)
    requires Visit(FoldConstants(fpu), s) == Fold(fpu, s)
    ensures ProcessUnary(FoldConstants(fpu), Un(op, s)) == Fold(fpu, Un(op, s))
  {
  }

  lemma {:induction false} VisitUnaryIsFold(fpu: FPU, op: UnaryOp, s: Expr)
    ensures Visit(FoldConstants(fpu), Un(op, s)) == Fold(fpu, Un(op, s))
    decreases Size(Un(op, s)), 0
  {
    VisitIsFold(fpu, s);
    ProcessUnaryIsFold(fpu, op, s);
    var r' := Fold(fpu, Un(op, s));
    if r'.Ok? && r'.value.Un? {
      SecondVisit(fpu, s);
    }
  }

  lemma ProcessComparisonIsFold(fpu: FPU, op: ComparisonOp, l: Expr, r: Expr)
    requires Visit(FoldConstants(fpu), l) == Fold(fpu, l)
    requires Visit(FoldConstants(fpu), r) == Fold(fpu, r)
    ensures ProcessComparison(FoldConstants(fpu), Cmp(op, l, r)) == Fold(fpu, Cmp(op, l, r))
  {
  }

  lemma {:induction false} VisitComparisonIsFold(fpu: FPU, op: ComparisonOp, l: Expr, r: Expr)
    ensures Visit(FoldConstants(fpu), Cmp(op, l, r)) == Fold(fpu, Cmp(op, l, r))
    decreases Size(Cmp(op, l, r)), 0
  {
    hide Size, CompareDoubles, NumericValue, IsArithmetic, IsLogical;
    SizeOfPair(Addition, op, l, r);
    VisitIsFold(fpu, l);
    VisitIsFold(fpu, r);
    ProcessComparisonIsFold(fpu, op, l, r);
    var r' := Fold(fpu, Cmp(op, l, r));
    if r'.Ok? && r'.value.Cmp? {
      SecondVisit(fpu, l);
      SecondVisit(fpu, r);
    }
  }

  lemma {:induction false} SecondVisit(fpu: FPU, e: Expr)
    requires Fold(fpu, e).Ok?
    ensures Visit(FoldConstants(fpu), Fold(fpu, e).value) == Fold(fpu, e)
    decreases Size(e), 2
  {
    VisitIsFold(fpu, Fold(fpu, e).value);
    FoldIdempotent(fpu, e);
  }

  // ---------- How often nodes are visited ----------

  function Height(e: Expr): nat {
    match e
    case Attr(b, _) => 1 + Height(b)
    case Call(_, args) => 1 + HeightAll(args)
    case Bin(_, l, r) => 1 + Max(Height(l), Height(r))
    case Un(_, s) => 1 + Height(s)
    case Cmp(_, l, r) => 1 + Max(Height(l), Height(r))
    case _ => 0
  }

  function HeightAll(es: seq<Expr>): nat {
    if es == [] then 0 else Max(Height(es[0]), HeightAll(es[1..]))
  }

  function Max(a: nat, b: nat): nat {
    if a < b then b else a
  }

  /** s * 2^h. */
  function Doubled(s: nat, h: nat): nat {
    if h == 0 then s else 2 * Doubled(s, h - 1)
  }

  /** Calls of the walker during a fold that succeeds: once for the node, once for each
      child inside the pass, and once more for each child of a node that did not fold. */
  function Visits(fpu: FPU, e: Expr): nat
    requires Fold(fpu, e).Ok?
    decreases Size(e), 0
  {
    var e' := Fold(fpu, e).value;
    match e
    case Attr(b, _) => 1 + Visits(fpu, b)
    case Call(_, args) => 1 + VisitsAll(fpu, args)
    case Bin(_, l, r) =>
      1 + (if IsNumericLiteral(l) then 0 else Visits(fpu, l))
        + (if IsNumericLiteral(r) then 0 else Visits(fpu, r))
        + (if e'.Bin? then Revisits(fpu, l) + Revisits(fpu, r) else 1)
    case Un(op, s) =>
      1 + (if (if op.BooleanNegation? then s.BoolLit? else IsNumericLiteral(s)) then 0 else Visits(fpu, s))
        + (if e'.Un? then Revisits(fpu, s) else 1)
    case Cmp(_, l, r) =>
      1 + (if IsLiteral(l) then 0 else Visits(fpu, l))
        + (if IsLiteral(r) then 0 else Visits(fpu, r))
        + (if e'.Cmp? then Revisits(fpu, l) + Revisits(fpu, r) else 1)
    case _ => 1
  }

  function Revisits(fpu: FPU, e: Expr): nat
    requires Fold(fpu, e).Ok?
    decreases Size(e), 1
  {
    FoldIdempotent(fpu, e);
    Visits(fpu, Fold(fpu, e).value)
  }

  function VisitsAll(fpu: FPU, es: seq<Expr>): nat
    requires FoldAll(fpu, es).Ok?
    decreases SizeAll(es), 2, |es|
  {
    if es == [] then 0 else Visits(fpu, es[0]) + VisitsAll(fpu, es[1..])
  }

  lemma NodeLowers(fpu: FPU)
    ensures forall op, l, r :: FoldBinary(fpu, op, l, r).Ok? ==>
                Height(FoldBinary(fpu, op, l, r).value) <= 1 + Max(Height(l), Height(r))
    ensures forall op, s :: FoldUnary(op, s).Ok? ==> Height(FoldUnary(op, s).value) <= 1 + Height(s)
    ensures forall op, l, r :: FoldComparison(op, l, r).Ok? ==>
                Height(FoldComparison(op, l, r).value) <= 1 + Max(Height(l), Height(r))
  {
    hide Max;
  }

  lemma {:induction false} FoldLowers(fpu: FPU, e: Expr)
    requires Fold(fpu, e).Ok?
    ensures Height(Fold(fpu, e).value) <= Height(e)
    decreases e
  {
    hide FoldBinary, FoldUnary, FoldComparison, FoldAll;
    NodeLowers(fpu);
    match e
    case Attr(b, _) => FoldLowers(fpu, b);
    case Call(_, args) => FoldAllLowers(fpu, args);
    case Bin(_, l, r) => FoldLowers(fpu, l); FoldLowers(fpu, r);
    case Un(_, s) => FoldLowers(fpu, s);
    case Cmp(_, l, r) => FoldLowers(fpu, l); FoldLowers(fpu, r);
    case _ =>
  }

  lemma {:induction false} FoldAllLowers(fpu: FPU, es: seq<Expr>)
    requires FoldAll(fpu, es).Ok?
    ensures HeightAll(FoldAll(fpu, es).value) <= HeightAll(es)
    decreases es
  {
    if es != [] {
      FoldLowers(fpu, es[0]);
      FoldAllLowers(fpu, es[1..]);
    }
  }

  lemma {:induction false} DoubledAdds(s: nat, t: nat, h: nat)
    ensures Doubled(s + t, h) == Doubled(s, h) + Doubled(t, h)
  {
    if h > 0 {
      DoubledAdds(s, t, h - 1);
    }
  }

  lemma {:induction false} DoubledGrows(s: nat, m: nat, t: nat, n: nat)
    requires s <= t && m <= n
    ensures s <= Doubled(s, m) <= Doubled(t, n)
  {
    if m > 0 {
      DoubledGrows(s, m - 1, t, n - 1);
    } else if n > 0 {
      DoubledGrows(s, m, t, n - 1);
    }
  }

  lemma VisitsOfBinary(fpu: FPU, op: BinaryOp, l: Expr, r: Expr)
    requires Fold(fpu, Bin(op, l, r)).Ok?
    ensures Fold(fpu, l).Ok? && Fold(fpu, r).Ok?
    ensures Visits(fpu, Bin(op, l, r))
         <= 2 + Visits(fpu, l) + Revisits(fpu, l) + Visits(fpu, r) + Revisits(fpu, r)
  {
  }

  lemma VisitsOfUnary(fpu: FPU, op: UnaryOp, s: Expr)
    requires Fold(fpu, Un(op, s)).Ok?
    ensures Fold(fpu, s).Ok?
    ensures Visits(fpu, Un(op, s)) <= 2 + Visits(fpu, s) + Revisits(fpu, s)
  {
  }

  lemma VisitsOfComparison(fpu: FPU, op: ComparisonOp, l: Expr, r: Expr)
    requires Fold(fpu, Cmp(op, l, r)).Ok?
    ensures Fold(fpu, l).Ok? && Fold(fpu, r).Ok?
    ensures Visits(fpu, Cmp(op, l, r))
         <= 2 + Visits(fpu, l) + Revisits(fpu, l) + Visits(fpu, r) + Revisits(fpu, r)
  {
  }

  /** Refolding already folded children costs at most a factor of two per level: a fold
      makes at most size times 2^height visits. */
  lemma {:induction false} VisitsBounded(fpu: FPU, e: Expr)
    requires Fold(fpu, e).Ok?
    ensures Visits(fpu, e) <= Doubled(Size(e), Height(e))
    decreases Size(e), 0
  {
    if e.Attr? {
      AttributeVisitsBounded(fpu, e.base, e.attr);
    } else if e.Call? {
      CallVisitsBounded(fpu, e.callee, e.args);
    } else if e.Bin? {
      BinaryVisitsBounded(fpu, e.bop, e.left, e.right);
    } else if e.Un? {
      UnaryVisitsBounded(fpu, e.uop, e.sub);
    } else if e.Cmp? {
      ComparisonVisitsBounded(fpu, e.cop, e.left, e.right);
    } else {
      VisitsOfLeaf(fpu, e);
    }
  }

  lemma {:induction false} AttributeVisitsBounded(fpu: FPU, b: Expr, n: string)
    requires Fold(fpu, Attr(b, n)).Ok?
    ensures Visits(fpu, Attr(b, n)) <= Doubled(Size(Attr(b, n)), Height(Attr(b, n)))
    decreases Size(b), 3
  {
    VisitsBounded(fpu, b);
    TwoChildren(Size(b), 0, Height(b));
  }

  lemma {:induction false} CallVisitsBounded(fpu: FPU, m: string, args: seq<Expr>)
    requires Fold(fpu, Call(m, args)).Ok?
    ensures Visits(fpu, Call(m, args)) <= Doubled(Size(Call(m, args)), Height(Call(m, args)))
    decreases SizeAll(args), 3
  {
    VisitsAllBounded(fpu, args);
    TwoChildren(SizeAll(args), 0, HeightAll(args));
  }

  lemma {:induction false} BinaryVisitsBounded(fpu: FPU, op: BinaryOp, l: Expr, r: Expr)
    requires Fold(fpu, Bin(op, l, r)).Ok?
    ensures Visits(fpu, Bin(op, l, r)) <= Doubled(Size(Bin(op, l, r)), Height(Bin(op, l, r)))
    decreases Size(l) + Size(r), 3
  {
    hide Fold, Visits, Revisits, Doubled, Max;
    VisitsOfBinary(fpu, op, l, r);
    PairVisitsBounded(fpu, l, r);
  }

  lemma {:induction false} ComparisonVisitsBounded(fpu: FPU, op: ComparisonOp, l: Expr, r: Expr)
    requires Fold(fpu, Cmp(op, l, r)).Ok?
    ensures Visits(fpu, Cmp(op, l, r)) <= Doubled(Size(Cmp(op, l, r)), Height(Cmp(op, l, r)))
    decreases Size(l) + Size(r), 3
  {
    hide Fold, Visits, Revisits, Doubled, Max;
    VisitsOfComparison(fpu, op, l, r);
    PairVisitsBounded(fpu, l, r);
  }

  lemma {:induction false} UnaryVisitsBounded(fpu: FPU, op: UnaryOp, s: Expr)
    requires Fold(fpu, Un(op, s)).Ok?
    ensures Visits(fpu, Un(op, s)) <= Doubled(Size(Un(op, s)), Height(Un(op, s)))
    decreases Size(s), 3
  {
    hide Fold, Visits, Revisits, Doubled;
    VisitsOfUnary(fpu, op, s);
    BothVisitsBounded(fpu, s, Height(s));
    TwoChildren(Size(s), 0, Height(s));
  }

  lemma VisitsOfLeaf(fpu: FPU, e: Expr)
    requires IsLiteral(e) || e.Var?
    ensures Visits(fpu, e) <= Doubled(Size(e), Height(e))
  {
    assert Doubled(1, 0) == 1;
  }

  lemma {:induction false} PairVisitsBounded(fpu: FPU, l: Expr, r: Expr)
    requires Fold(fpu, l).Ok? && Fold(fpu, r).Ok?
    ensures 2 + Visits(fpu, l) + Revisits(fpu, l) + Visits(fpu, r) + Revisits(fpu, r)
         <= Doubled(1 + Size(l) + Size(r), 1 + Max(Height(l), Height(r)))
    decreases Size(l) + Size(r), 2
  {
    hide Fold, Visits, Revisits, Doubled;
    var h := Max(Height(l), Height(r));
    BothVisitsBounded(fpu, l, h);
    BothVisitsBounded(fpu, r, h);
    TwoChildren(Size(l), Size(r), h);
  }

  lemma {:induction false} BothVisitsBounded(fpu: FPU, e: Expr, h: nat)
    requires Fold(fpu, e).Ok? && Height(e) <= h
    ensures Visits(fpu, e) <= Doubled(Size(e), h) && Revisits(fpu, e) <= Doubled(Size(e), h)
    decreases Size(e), 1
  {
    var e' := Fold(fpu, e).value;
    FoldIdempotent(fpu, e);
    FoldLowers(fpu, e);
    VisitsBounded(fpu, e);
    VisitsBounded(fpu, e');
    DoubledGrows(Size(e), Height(e), Size(e), h);
    DoubledGrows(Size(e'), Height(e'), Size(e), h);
  }

  lemma {:induction false} DoubledZero(h: nat)
    ensures Doubled(0, h) == 0
  {
    if h > 0 {
      DoubledZero(h - 1);
    }
  }

  lemma {:induction false} VisitsAllBounded(fpu: FPU, es: seq<Expr>)
    requires FoldAll(fpu, es).Ok?
    ensures VisitsAll(fpu, es) <= Doubled(SizeAll(es), HeightAll(es))
    decreases SizeAll(es), 2, |es|
  {
    hide Fold, Visits, Doubled;
    DoubledZero(HeightAll([]));
    if es != [] {
      var h := HeightAll(es);
      VisitsBounded(fpu, es[0]);
      VisitsAllBounded(fpu, es[1..]);
      DoubledGrows(Size(es[0]), Height(es[0]), Size(es[0]), h);
      DoubledGrows(SizeAll(es[1..]), HeightAll(es[1..]), SizeAll(es[1..]), h);
      DoubledAdds(Size(es[0]), SizeAll(es[1..]), h);
    }
  }

  lemma TwoChildren(s: nat, t: nat, h: nat)
    ensures 2 + 2 * Doubled(s, h) + 2 * Doubled(t, h) <= Doubled(1 + s + t, 1 + h)
  {
    DoubledAdds(1, s + t, h);
    DoubledAdds(s, t, h);
    DoubledGrows(1, 0, 1, h);
  }
}
