/** Where the values of a compiled expression live.  The value of an operation or a call is a
    temporary; an attribute lives in the storage of its base, which is released right after the
    lookup, so an attribute of a temporary is gone at once. */
module LoweringStorage {
  import opened Results
  import opened Ast
  import opened Semantics
  import opened Ir
  import opened Lowering
  import opened LoweringRuns

  // ---------- Expressions ----------

  /** The expression leaves its value in a new temporary. */
  predicate Temporary(e: Expr) {
    IsVariant(e) && !e.Var? && !e.Attr?
  }

  /** Attributes are taken of variables and attributes only, never of a temporary. */
  predicate Rooted(e: Expr) {
    match e
    case Attr(b, _) => (b.Var? || b.Attr?) && Rooted(b)
    case Call(_, args) => RootedAll(args)
    case Bin(_, l, r) => Rooted(l) && Rooted(r)
    case Un(_, s) => Rooted(s)
    case Cmp(_, l, r) => Rooted(l) && Rooted(r)
    case _ => true
  }

  predicate RootedAll(es: seq<Expr>) {
    if es == [] then true else Rooted(es[0]) && RootedAll(es[1..])
  }

  predicate RootedStmt(t: AST) {
    match t
    case Statements(l) => RootedStmts(l)
    case Raw(_) => true
    case Print(e) => Rooted(e)
    case If(c, a, b) => Rooted(c) && RootedStmt(a) && RootedOpt(b)
    case For(_, _, it, a, b) => Rooted(it) && RootedStmt(a) && RootedOpt(b)
    case Include(_, _, _) => true
  }

  predicate RootedOpt(o: Option<AST>) {
    match o
    case None => true
    case Some(t) => RootedStmt(t)
  }

  predicate RootedStmts(l: seq<AST>) {
    if l == [] then true else RootedStmt(l[0]) && RootedStmts(l[1..])
  }

  /** The attribute is there. */
  ghost predicate Finds(h: Host, base: Expr, n: string, env: Env) {
    Eval(h, base, env).Some? && HasAttribute(Eval(h, base, env).value, n)
  }

  /** The storage of the value has ended when the value has been computed. */
  ghost predicate Gone(h: Host, e: Expr, env: Env) {
    e.Attr? && Finds(h, e.base, e.attr, env) && (Temporary(e.base) || Gone(h, e.base, env))
  }

  /** Computing the value uses storage after its end. */
  ghost predicate Dangles(h: Host, e: Expr, env: Env) {
    match e
    case Attr(b, _) => Dangles(h, b, env) || Gone(h, b, env)
    case Call(_, args) => LosesAny(h, args, env)
    case Bin(_, l, r) => Dangles(h, l, env) || Dangles(h, r, env) || Gone(h, l, env) || Gone(h, r, env)
    case Un(_, s) => Dangles(h, s, env) || Gone(h, s, env)
    case Cmp(_, l, r) => Dangles(h, l, env) || Dangles(h, r, env) || Gone(h, l, env) || Gone(h, r, env)
    case _ => false
  }

  /** Computing the values and then using them does. */
  ghost predicate LosesAny(h: Host, es: seq<Expr>, env: Env) {
    es != [] && (Dangles(h, es[0], env) || Gone(h, es[0], env) || LosesAny(h, es[1..], env))
  }

  ghost predicate DanglesAny(h: Host, es: seq<Expr>, env: Env) {
    es != [] && (Dangles(h, es[0], env) || DanglesAny(h, es[1..], env))
  }

  ghost predicate GoneAny(h: Host, es: seq<Expr>, env: Env) {
    es != [] && (Gone(h, es[0], env) || GoneAny(h, es[1..], env))
  }

  lemma {:induction false} LosesAnyIs(h: Host, es: seq<Expr>, env: Env)
    ensures LosesAny(h, es, env) <==> DanglesAny(h, es, env) || GoneAny(h, es, env)
    decreases es
  {
    if es != [] {
      LosesAnyIs(h, es[1..], env);
    }
  }

  lemma RootedStays(h: Host, e: Expr, env: Env)
    requires Rooted(e)
    ensures !Gone(h, e, env)
    decreases e
  {
    if e.Attr? { RootedStays(h, e.base, env); }
  }

  lemma {:induction false} RootedAllStay(h: Host, es: seq<Expr>, env: Env)
    requires RootedAll(es)
    ensures !GoneAny(h, es, env)
    decreases es
  {
    if es != [] {
      RootedStays(h, es[0], env);
      RootedAllStay(h, es[1..], env);
    }
  }

  /** An attribute that is there is taken of a temporary, somewhere in the expression. */
  ghost predicate TakesFromTemporary(h: Host, e: Expr, env: Env) {
    match e
    case Attr(b, n) => (Temporary(b) && Finds(h, b, n, env)) || TakesFromTemporary(h, b, env)
    case Call(_, args) => AnyTakesFromTemporary(h, args, env)
    case Bin(_, l, r) => TakesFromTemporary(h, l, env) || TakesFromTemporary(h, r, env)
    case Un(_, s) => TakesFromTemporary(h, s, env)
    case Cmp(_, l, r) => TakesFromTemporary(h, l, env) || TakesFromTemporary(h, r, env)
    case _ => false
  }

  ghost predicate AnyTakesFromTemporary(h: Host, es: seq<Expr>, env: Env) {
    es != [] && (TakesFromTemporary(h, es[0], env) || AnyTakesFromTemporary(h, es[1..], env))
  }

  /** Computing a value and then using it goes wrong exactly when an attribute of a temporary
      is found on the way: whatever is computed is used. */
  lemma {:induction false} LosesExactly(h: Host, e: Expr, env: Env)
    ensures Dangles(h, e, env) || Gone(h, e, env) <==> TakesFromTemporary(h, e, env)
    decreases e
  {
    match e
    case Attr(b, _) => LosesExactly(h, b, env);
    case Call(_, args) => LosesAnyExactly(h, args, env);
    case Bin(_, l, r) =>
      LosesExactly(h, l, env);
      LosesExactly(h, r, env);
    case Un(_, s) => LosesExactly(h, s, env);
    case Cmp(_, l, r) =>
      LosesExactly(h, l, env);
      LosesExactly(h, r, env);
    case _ =>
  }

  lemma {:induction false} LosesAnyExactly(h: Host, es: seq<Expr>, env: Env)
    ensures LosesAny(h, es, env) <==> AnyTakesFromTemporary(h, es, env)
    decreases es
  {
    if es != [] {
      LosesExactly(h, es[0], env);
      LosesAnyExactly(h, es[1..], env);
    }
  }

  // ---------- Machine states ----------

  /** The storage of the operand's value has outstanding references. */
  predicate Held(b: Builder, s: State, o: Operand, track: Tracked) {
    RootOf(s, o).Some? ==> Counted(b, RootOf(s, o).value) && Tracks(track, RootOf(s, o).value)
  }

  ghost predicate OverHeld(b: Builder, s: State, track: Tracked) {
    forall x :: x in b.over ==> Held(b, s, b.over[x], track)
  }

  lemma HeldWhenKept(b: Builder, b': Builder, s: State, s': State, o: Operand, track: Tracked)
    requires Held(b, s, o, track) && RootOf(s', o) == RootOf(s, o) && CountsKept(b, b')
    ensures Held(b', s', o, track)
  {
  }

  lemma HeldIsUsable(b: Builder, s: State, o: Operand, track: Tracked)
    requires Alive(b, s, track) && Held(b, s, o, track)
    ensures Usable(s, o)
  {
  }

  /** Where the value of e, computed from b to c, lives. */
  ghost predicate Placed(h: Host, b: Builder, e: Expr, env: Env, c: Computed, s: State, track: Tracked) {
    if Temporary(e) then Single(c)
    else if Gone(h, e, env) then RootOf(s, c.v).Some? && RootOf(s, c.v).value < c.b.next && !Usable(s, c.v)
    else Held(b, s, c.v, track)
  }

  /** What computing e does with storage. */
  ghost predicate Stored(h: Host, b: Builder, s: State, e: Expr, env: Env, c: Computed, s': State, track: Tracked) {
    && (Rooted(e) ==> s'.dangling == s.dangling)
    && (Eval(h, e, env).Some? ==>
          && (s'.dangling <==> s.dangling || Dangles(h, e, env))
          && Placed(h, b, e, env, c, s', track))
  }

  /** A temporary with one reference is alive in its own storage. */
  lemma SingleIsRoot(c: Computed, s: State, track: Tracked)
    requires Single(c) && Alive(c.b, s, track) && c.v.Reg? && c.v.ty.VariantPtr? && Proper(s, c.v, track)
    ensures RootOf(s, c.v) == Some(c.v.id) && c.v.id < c.b.next && Counted(c.b, c.v.id) && Tracks(track, c.v.id)
  {
    assert c.v == Variant(c.v.id);
  }

  lemma CountedIsLive(b: Builder, s: State, id: nat, track: Tracked)
    requires Alive(b, s, track) && Counted(b, id) && Tracks(track, id)
    ensures id in s.live
  {
  }

  lemma StaysDead(s: State, s': State, n: nat, id: nat)
    requires AgreeBelow(s, s', n) && id < n && id !in s.live
    ensures id !in s'.live
  {
  }

  lemma StaysCounted(b: Builder, b': Builder, id: nat)
    requires CountsKept(b, b') && Counted(b, id)
    ensures Counted(b', id)
  {
  }

  /** While counts do not drop, a value can be used later unless it is gone already. */
  lemma UsableUnlessGone(h: Host, b: Builder, e: Expr, env: Env, c: Computed, s: State, b': Builder, s': State,
                         track: Tracked)
    requires Placed(h, b, e, env, c, s, track) && Alive(c.b, s, track) && Alive(b', s', track)
    requires CountsKept(b, b') && CountsKept(c.b, b') && AgreeBelow(s, s', c.b.next)
    requires RootOf(s', c.v) == RootOf(s, c.v)
    requires Temporary(e) ==> c.v.Reg? && c.v.ty.VariantPtr? && Proper(s, c.v, track)
    ensures Usable(s', c.v) <==> !Gone(h, e, env)
  {
    hide Alive, Single, CountsKept, AgreeBelow, Counted, RootOf, Proper;
    if Temporary(e) {
      SingleIsRoot(c, s, track);
      StaysCounted(c.b, b', c.v.id);
      CountedIsLive(b', s', c.v.id, track);
    } else if Gone(h, e, env) {
      StaysDead(s, s', c.b.next, RootOf(s, c.v).value);
    } else {
      HeldWhenKept(b, b', s, s', c.v, track);
      HeldIsUsable(b', s', c.v, track);
    }
  }
}
