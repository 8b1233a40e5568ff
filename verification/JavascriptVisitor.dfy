/** The JavaScript backend as it runs: a visitor that writes lines through a code emitter
    while it keeps a loop counter and a map of shadowed names.  It is proved to write the
    lines of the statement tree of Javascript.Lower and to restore what it changed. */
module JavascriptVisitors {
  import opened Results
  import opened Ast
  import opened Semantics
  import opened Passes
  import opened Javascript

  // ---------- Lines ----------

  /** The kinds of line the visitor writes, with the parts that vary. */
  datatype Code =
    | AppendLine(e: JExpr)                  // buffer += e;
    | DeclareLine(id: Id, e: JExpr)         // var id = e;
    | SetFlagLine(id: Id)                   // var id = true;
    | ClearFlagLine(id: Id)                 // id = false;
    | IfLine(e: JExpr)                      // if (e) {
    | ElseIfLine(e: JExpr)                  // } else if (e) {
    | ElseLine                              // } else {
    | CloseLine                             // }
    | ForLine(key: Id, iterable: Id)        // for (var key in iterable) {
    | GuardLine(key: Id, iterable: Id)      // if (!iterable.hasOwnProperty(key)) continue;
    | ValueLine(id: Id, key: Id, iterable: Id)  // var id = iterable[key];
    | FunctionLine                          // function(helpers, data) {
    | DefaultDataLine                       // data = data || {};
    | BufferLine                            // var buffer = '';
    | ReturnLine                            // return buffer;

  datatype Token = Tab | Text(code: Code) | EndOfLine

  /** The output after n more tabs. */
  function TabsTo(o: seq<Token>, n: int): seq<Token>
    decreases if n <= 0 then 0 else n
  {
    if n <= 0 then o else TabsTo(o, n - 1) + [Tab]
  }

  /** The output after one more line. */
  function LineTo(o: seq<Token>, indent: int, c: Code): seq<Token> {
    BlankTo(TabsTo(o, indent) + [Text(c)])
  }

  function BlankTo(o: seq<Token>): seq<Token> {
    o + [EndOfLine]
  }

  /** The output after the lines of a statement. */
  function PrintTo(o: seq<Token>, s: JStmt, indent: int): seq<Token>
    decreases s
  {
    match s
    case Append(e) => LineTo(o, indent, AppendLine(e))
    case DeclareIterable(id, e) => LineTo(BlankTo(o), indent, DeclareLine(id, e))
    case DeclareFlag(id) => LineTo(o, indent, SetFlagLine(id))
    case JIf(c, a, b) => PrintElseTo(PrintAllTo(LineTo(BlankTo(o), indent, IfLine(c)), a, indent + 1), b, indent)
    case ForIn(k, it, v, body, flag) =>
      ForTailTo(PrintAllTo(ForHeadTo(o, k, it, v, indent), body, indent + 1), flag, indent)
    case IfFlag(id, body) => CloseTo(PrintAllTo(LineTo(o, indent, IfLine(Local(id))), body, indent + 1), indent)
  }

  function CloseTo(o: seq<Token>, indent: int): seq<Token> {
    BlankTo(LineTo(o, indent, CloseLine))
  }

  function ForHeadTo(o: seq<Token>, k: Id, it: Id, v: Option<Id>, indent: int): seq<Token> {
    var o' := LineTo(LineTo(o, indent, ForLine(k, it)), indent + 1, GuardLine(k, it));
    BlankTo(if v.Some? then LineTo(o', indent + 1, ValueLine(v.value, k, it)) else o')
  }

  function ForTailTo(o: seq<Token>, flag: Option<Id>, indent: int): seq<Token> {
    CloseTo(if flag.Some? then LineTo(o, indent + 1, ClearFlagLine(flag.value)) else o, indent)
  }

  function PrintElseTo(o: seq<Token>, s: JElse, indent: int): seq<Token>
    decreases s
  {
    match s
    case NoElse => CloseTo(o, indent)
    case Else(b) => CloseTo(PrintAllTo(LineTo(o, indent, ElseLine), b, indent + 1), indent)
    case ElseIf(c, a, b) => PrintElseTo(PrintAllTo(LineTo(o, indent, ElseIfLine(c)), a, indent + 1), b, indent)
  }

  function PrintAllTo(o: seq<Token>, l: seq<JStmt>, indent: int): seq<Token>
    decreases l
  {
    if l == [] then o else PrintAllTo(PrintTo(o, l[0], indent), l[1..], indent)
  }

  function HeaderTo(o: seq<Token>, indent: int): seq<Token> {
    BlankTo(LineTo(LineTo(LineTo(o, indent, FunctionLine), indent + 1, DefaultDataLine), indent + 1, BufferLine))
  }

  function FooterTo(o: seq<Token>, indent: int): seq<Token> {
    LineTo(LineTo(BlankTo(o), indent + 1, ReturnLine), indent, CloseLine)
  }

  /** The output after the whole function. */
  function FunctionTo(o: seq<Token>, l: seq<JStmt>, indent: int): seq<Token> {
    FooterTo(PrintAllTo(HeaderTo(o, indent), l, indent + 1), indent)
  }

  lemma {:induction false} PrintConcat(o: seq<Token>, a: seq<JStmt>, b: seq<JStmt>, indent: int)
    ensures PrintAllTo(o, a + b, indent) == PrintAllTo(PrintAllTo(o, a, indent), b, indent)
    decreases a
  {
    if a == [] {
      assert a + b == b;
    } else {
      assert (a + b)[1..] == a[1..] + b;
      PrintConcat(PrintTo(o, a[0], indent), a[1..], b, indent);
    }
  }

  lemma PrintCons(o: seq<Token>, s: JStmt, l: seq<JStmt>, indent: int)
    ensures PrintAllTo(o, [s] + l, indent) == PrintAllTo(PrintTo(o, s, indent), l, indent)
    ensures PrintAllTo(o, [s], indent) == PrintTo(o, s, indent)
  {
    assert ([s] + l)[1..] == l && [s][1..] == [];
  }

  // ---------- Braces and indentation ----------

  predicate Opens(c: Code) {
    c.IfLine? || c.ForLine? || c.FunctionLine? || c.ElseIfLine? || c.ElseLine?
  }

  predicate Closes(c: Code) {
    c.CloseLine? || c.ElseIfLine? || c.ElseLine?
  }

  /** Where reading the output has got to: how many braces are open and how many tabs the
      current line has so far; or that a line was not indented by the number of braces open
      (less one if it starts with a closing brace), or closed a brace that was not open. */
  datatype Nesting = Nesting(depth: nat, tabs: nat) | Misplaced

  function Read(o: seq<Token>): Nesting {
    if o == [] then Nesting(0, 0)
    else
      var before, last := Read(o[..|o| - 1]), o[|o| - 1];
      if before.Misplaced? then Misplaced
      else
        match last
        case Tab => Nesting(before.depth, before.tabs + 1)
        case EndOfLine => Nesting(before.depth, 0)
        case Text(c) =>
          if Closes(c) && before.depth == 0 then Misplaced
          else
            var inner: nat := if Closes(c) then before.depth - 1 else before.depth;
            if before.tabs != inner then Misplaced
            else Nesting(if Opens(c) then inner + 1 else inner, 0)
  }

  lemma {:induction false} ReadTabs(o: seq<Token>, n: nat)
    requires Read(o).Nesting?
    ensures Read(TabsTo(o, n)) == Nesting(Read(o).depth, Read(o).tabs + n)
    decreases n
  {
    if n > 0 {
      ReadTabs(o, n - 1);
      var t := TabsTo(o, n - 1);
      assert (t + [Tab])[..|t|] == t;
    }
  }

  lemma ReadBlank(o: seq<Token>, n: nat)
    requires Read(o) == Nesting(n, 0)
    ensures Read(BlankTo(o)) == Nesting(n, 0)
  {
    assert BlankTo(o)[..|o|] == o;
  }

  lemma ReadLine(o: seq<Token>, n: nat, c: Code)
    requires Read(o) == Nesting(if Closes(c) then n + 1 else n, 0)
    ensures Read(LineTo(o, n, c)) == Nesting(if Opens(c) then n + 1 else n, 0)
  {
    ReadTabs(o, n);
    var t := TabsTo(o, n);
    assert (t + [Text(c)])[..|t|] == t;
    ReadBlank(t + [Text(c)], if Opens(c) then n + 1 else n);
  }

  lemma ReadClose(o: seq<Token>, n: nat)
    requires Read(o) == Nesting(n + 1, 0)
    ensures Read(CloseTo(o, n)) == Nesting(n, 0)
  {
    ReadLine(o, n, CloseLine);
    ReadBlank(LineTo(o, n, CloseLine), n);
  }

  /** The lines of a statement written at depth n nest properly and return to depth n. */
  lemma {:induction false} PrintNests(o: seq<Token>, s: JStmt, n: nat)
    requires Read(o) == Nesting(n, 0)
    ensures Read(PrintTo(o, s, n)) == Nesting(n, 0)
    decreases s, 0
  {
    hide Read, LineTo, BlankTo, TabsTo, CloseTo, ForHeadTo, ForTailTo, PrintAllTo, PrintElseTo;
    match s
    case Append(e) => ReadLine(o, n, AppendLine(e));
    case DeclareIterable(id, e) =>
      ReadBlank(o, n);
      ReadLine(BlankTo(o), n, DeclareLine(id, e));
    case DeclareFlag(id) => ReadLine(o, n, SetFlagLine(id));
    case JIf(c, a, b) =>
      ReadBlank(o, n);
      ReadLine(BlankTo(o), n, IfLine(c));
      PrintAllNests(LineTo(BlankTo(o), n, IfLine(c)), a, n + 1);
      PrintElseNests(PrintAllTo(LineTo(BlankTo(o), n, IfLine(c)), a, n + 1), b, n);
    case ForIn(k, it, v, body, flag) =>
      ForHeadNests(o, k, it, v, n);
      PrintAllNests(ForHeadTo(o, k, it, v, n), body, n + 1);
      ForTailNests(PrintAllTo(ForHeadTo(o, k, it, v, n), body, n + 1), flag, n);
    case IfFlag(id, body) =>
      ReadLine(o, n, IfLine(Local(id)));
      PrintAllNests(LineTo(o, n, IfLine(Local(id))), body, n + 1);
      ReadClose(PrintAllTo(LineTo(o, n, IfLine(Local(id))), body, n + 1), n);
  }

  lemma ForHeadNests(o: seq<Token>, k: Id, it: Id, v: Option<Id>, n: nat)
    requires Read(o) == Nesting(n, 0)
    ensures Read(ForHeadTo(o, k, it, v, n)) == Nesting(n + 1, 0)
  {
    hide Read, LineTo, BlankTo, TabsTo;
    var o1 := LineTo(o, n, ForLine(k, it));
    ReadLine(o, n, ForLine(k, it));
    var o2 := LineTo(o1, n + 1, GuardLine(k, it));
    ReadLine(o1, n + 1, GuardLine(k, it));
    if v.Some? {
      ReadLine(o2, n + 1, ValueLine(v.value, k, it));
      ReadBlank(LineTo(o2, n + 1, ValueLine(v.value, k, it)), n + 1);
    } else {
      ReadBlank(o2, n + 1);
    }
  }

  lemma ForTailNests(o: seq<Token>, flag: Option<Id>, n: nat)
    requires Read(o) == Nesting(n + 1, 0)
    ensures Read(ForTailTo(o, flag, n)) == Nesting(n, 0)
  {
    if flag.Some? {
      ReadLine(o, n + 1, ClearFlagLine(flag.value));
      ReadClose(LineTo(o, n + 1, ClearFlagLine(flag.value)), n);
    } else {
      ReadClose(o, n);
    }
  }

  /** An else part starts inside the braces of its `if` and closes them, through chains of
      `else if` of any length. */
  lemma {:induction false} PrintElseNests(o: seq<Token>, s: JElse, n: nat)
    requires Read(o) == Nesting(n + 1, 0)
    ensures Read(PrintElseTo(o, s, n)) == Nesting(n, 0)
    decreases s, 0
  {
    hide Read, LineTo, BlankTo, TabsTo, CloseTo, PrintAllTo;
    match s
    case NoElse => ReadClose(o, n);
    case Else(b) =>
      ReadLine(o, n, ElseLine);
      PrintAllNests(LineTo(o, n, ElseLine), b, n + 1);
      ReadClose(PrintAllTo(LineTo(o, n, ElseLine), b, n + 1), n);
    case ElseIf(c, a, b) =>
      ReadLine(o, n, ElseIfLine(c));
      PrintAllNests(LineTo(o, n, ElseIfLine(c)), a, n + 1);
      PrintElseNests(PrintAllTo(LineTo(o, n, ElseIfLine(c)), a, n + 1), b, n);
  }

  lemma {:induction false} PrintAllNests(o: seq<Token>, l: seq<JStmt>, n: nat)
    requires Read(o) == Nesting(n, 0)
    ensures Read(PrintAllTo(o, l, n)) == Nesting(n, 0)
    decreases l, 0
  {
    if l != [] {
      PrintNests(o, l[0], n);
      PrintAllNests(PrintTo(o, l[0], n), l[1..], n);
    }
  }

  /** In the whole function every brace is matched and every line is indented by its depth. */
  lemma FunctionNests(l: seq<JStmt>)
    ensures Read(FunctionTo([], l, 0)) == Nesting(0, 0)
  {
    HeaderNests();
    PrintAllNests(HeaderTo([], 0), l, 1);
    FooterNests(PrintAllTo(HeaderTo([], 0), l, 1));
  }

  lemma ReadNothing()
    ensures Read([]) == Nesting(0, 0)
  {
  }

  lemma HeaderNests()
    ensures Read(HeaderTo([], 0)) == Nesting(1, 0)
  {
    hide Read, LineTo, BlankTo, TabsTo;
    ReadNothing();
    var o1 := LineTo([], 0, FunctionLine);
    ReadLine([], 0, FunctionLine);
    var o2 := LineTo(o1, 1, DefaultDataLine);
    ReadLine(o1, 1, DefaultDataLine);
    ReadLine(o2, 1, BufferLine);
    ReadBlank(LineTo(o2, 1, BufferLine), 1);
  }

  lemma FooterNests(o: seq<Token>)
    requires Read(o) == Nesting(1, 0)
    ensures Read(FooterTo(o, 0)) == Nesting(0, 0)
  {
    hide Read, LineTo, BlankTo, TabsTo;
    ReadBlank(o, 1);
    ReadLine(BlankTo(o), 1, ReturnLine);
    ReadLine(LineTo(BlankTo(o), 1, ReturnLine), 0, CloseLine);
  }

  // ---------- The emitter ----------

  class CodeEmitter {
    var output: seq<Token>
    var indentationCount: int

    constructor ()
      ensures output == [] && indentationCount == 0
    {
      output, indentationCount := [], 0;
    }

    method Indent()
      modifies this`indentationCount
      ensures indentationCount == old(indentationCount) + 1
    {
      indentationCount := indentationCount + 1;
    }

    method Outdent()
      modifies this`indentationCount
      ensures indentationCount == old(indentationCount) - 1
    {
      indentationCount := indentationCount - 1;
    }

    method StartLine()
      modifies this`output
      ensures output == TabsTo(old(output), indentationCount)
    {
      var i := 0;
      while i < indentationCount
        invariant 0 <= i && (i <= indentationCount || i == 0)
        invariant output == TabsTo(old(output), i)
      {
        output := output + [Tab];
        i := i + 1;
      }
    }

    method EndLine()
      modifies this`output
      ensures output == BlankTo(old(output))
    {
      output := output + [EndOfLine];
    }

    method Line(c: Code)
      modifies this`output
      ensures output == LineTo(old(output), indentationCount, c)
    {
      StartLine();
      output := output + [Text(c)];
      EndLine();
    }

    method BlankLine()
      modifies this`output
      ensures output == BlankTo(old(output))
    {
      output := output + [EndOfLine];
    }
  }

  // ---------- The visitor ----------

  /** The lines of an `if`, whether it starts a chain or continues one. */
  lemma IfPrints(o: seq<Token>, c: JExpr, a: seq<JStmt>, els: JElse, indent: int)
    ensures PrintTo(o, JIf(c, a, els), indent)
            == PrintElseTo(PrintAllTo(LineTo(BlankTo(o), indent, IfLine(c)), a, indent + 1), els, indent)
    ensures PrintElseTo(o, ElseIf(c, a, els), indent)
            == PrintElseTo(PrintAllTo(LineTo(o, indent, ElseIfLine(c)), a, indent + 1), els, indent)
  {
    hide LineTo, BlankTo, PrintAllTo;
  }

  /** What follows the body of an `if`. */
  lemma ElsePrints(o: seq<Token>, b: Option<AST>, shadow: Shadow, n: nat, indent: int)
    requires IncludeFreeOpt(b)
    requires b.Some? && b.value.If? ==> IncludeFree(b.value.thenBody) && IncludeFreeOpt(b.value.elseBody)
    ensures var e := LowerElse(b, shadow, n);
            match b
            case None => e.counter == n && PrintElseTo(o, e.els, indent) == BlankTo(LineTo(o, indent, CloseLine))
            case Some(If(c, x, y)) =>
              var x' := Lower(x, shadow, n);
              var y' := LowerElse(y, shadow, x'.counter);
              e == JsElse(ElseIf(LowerExpr(c, shadow), x'.stmts, y'.els), y'.counter)
            case Some(t) =>
              var t' := Lower(t, shadow, n);
              && e.counter == t'.counter
              && PrintElseTo(o, e.els, indent)
                 == BlankTo(LineTo(PrintAllTo(LineTo(o, indent, ElseLine), t'.stmts, indent + 1), indent, CloseLine))
  {
    hide LineTo, BlankTo, PrintAllTo, Lower;
  }

  lemma ElseIsFree(t: AST)
    ensures t.If? ==> IncludeFree(t) == (IncludeFree(t.thenBody) && IncludeFreeOpt(t.elseBody))
  {
  }

  class JavascriptVisitor {
    const output: CodeEmitter
    var forCounter: nat
    var shadowValues: Shadow

    constructor (output: CodeEmitter)
      ensures this.output == output && forCounter == 0 && shadowValues == map[]
    {
      this.output := output;
      forCounter := 0;
      shadowValues := map[];
    }

    /** The whole function; false stands for the exception on an include block. */
    method Visit(t: AST) returns (ok: bool)
      modifies this, output
      ensures ok <==> IncludeFree(t)
      ensures ok ==> shadowValues == old(shadowValues) && output.indentationCount == old(output.indentationCount)
      ensures ok ==>
        output.output
          == FunctionTo(old(output.output), Lower(t, old(shadowValues), old(forCounter)).stmts, output.indentationCount)
    {
      output.Line(FunctionLine);
      output.Indent();
      output.Line(DefaultDataLine);
      output.Line(BufferLine);
      output.BlankLine();
      ok := Statement(t);
      if !ok { return; }
      output.BlankLine();
      output.Line(ReturnLine);
      output.Outdent();
      output.Line(CloseLine);
    }

    /** Writes the lines of a statement and restores indentation and shadowed names, for all
        nestings and name clashes. */
    method Statement(t: AST) returns (ok: bool)
      modifies this, output
      ensures ok <==> IncludeFree(t)
      ensures ok ==> shadowValues == old(shadowValues) && output.indentationCount == old(output.indentationCount)
      ensures ok ==>
        && forCounter == Lower(t, old(shadowValues), old(forCounter)).counter
        && output.output
            == PrintAllTo(old(output.output), Lower(t, old(shadowValues), old(forCounter)).stmts,
                          output.indentationCount)
      decreases Nodes(t), 1
    {
      match t
      case Statements(l) => ok := StatementList(l);
      case Raw(text) =>
        output.Line(AppendLine(Const(Str(text))));
        PrintCons(old(output.output), Append(Const(Str(text))), [], output.indentationCount);
        ok := true;
      case Print(e) =>
        output.Line(AppendLine(LowerExpr(e, shadowValues)));
        PrintCons(old(output.output), Append(LowerExpr(e, shadowValues)), [], output.indentationCount);
        ok := true;
      case If(c, a, b) =>
        ok := IfBlock(c, a, b, false);
        if ok {
          ghost var printed := Lower(t, shadowValues, old(forCounter)).stmts[0];
          PrintCons(old(output.output), printed, [], output.indentationCount);
        }
      case For(k, v, it, a, b) => ok := ForBlock(k, v, it, a, b);
      case Include(_, _, _) => ok := false;
    }

    method StatementList(l: seq<AST>) returns (ok: bool)
      modifies this, output
      ensures ok <==> IncludeFreeAll(l)
      ensures ok ==> shadowValues == old(shadowValues) && output.indentationCount == old(output.indentationCount)
      ensures ok ==>
        && forCounter == LowerAll(l, old(shadowValues), old(forCounter)).counter
        && output.output
            == PrintAllTo(old(output.output), LowerAll(l, old(shadowValues), old(forCounter)).stmts,
                          output.indentationCount)
      decreases NodesAll(l), 2
    {
      ok := true;
      ghost var s0, n0, o0 := shadowValues, forCounter, output.output;
      for i := 0 to |l|
        invariant ok && shadowValues == s0 && output.indentationCount == old(output.indentationCount)
        invariant IncludeFreeAll(l) == IncludeFreeAll(l[i..])
        invariant IncludeFreeAll(l) ==>
          && LowerAll(l, s0, n0).counter == LowerAll(l[i..], s0, forCounter).counter
          && PrintAllTo(o0, LowerAll(l, s0, n0).stmts, output.indentationCount)
             == PrintAllTo(output.output, LowerAll(l[i..], s0, forCounter).stmts, output.indentationCount)
      {
        assert l[i..][0] == l[i] && l[i..][1..] == l[i + 1..];
        NodesOfElement(l, i);
        ghost var n, o := forCounter, output.output;
        ok := Statement(l[i]);
        if !ok { return; }
        ghost var a := Lower(l[i], s0, n);
        if IncludeFreeAll(l) {
          ghost var b := LowerAll(l[i + 1..], s0, a.counter);
          PrintConcat(o, a.stmts, b.stmts, output.indentationCount);
        }
      }
    }

    /** `if_block`: with `isElseIf` it continues the braces of the `if` before it. */
    method IfBlock(c: Expr, a: AST, b: Option<AST>, isElseIf: bool) returns (ok: bool)
      modifies this, output
      ensures ok <==> IncludeFree(a) && IncludeFreeOpt(b)
      ensures ok ==> shadowValues == old(shadowValues) && output.indentationCount == old(output.indentationCount)
      ensures ok ==>
        var a' := Lower(a, shadowValues, old(forCounter));
        var b' := LowerElse(b, shadowValues, a'.counter);
        && forCounter == b'.counter
        && output.output ==
             if isElseIf then
               PrintElseTo(old(output.output), ElseIf(LowerExpr(c, shadowValues), a'.stmts, b'.els),
                           output.indentationCount)
             else
               PrintTo(old(output.output), JIf(LowerExpr(c, shadowValues), a'.stmts, b'.els), output.indentationCount)
      decreases 1 + Nodes(a) + NodesOpt(b), 0
    {
      hide LineTo, BlankTo, TabsTo, PrintAllTo, PrintTo, PrintElseTo, LowerExpr, Lower, LowerElse, IncludeFree;
      if !isElseIf {
        output.BlankLine();
      }
      output.Line(if isElseIf then ElseIfLine(LowerExpr(c, shadowValues)) else IfLine(LowerExpr(c, shadowValues)));
      output.Indent();
      ok := Statement(a);
      if !ok { return; }
      output.Outdent();
      ghost var n := forCounter;
      if IncludeFreeOpt(b) {
        ghost var cond, body := LowerExpr(c, shadowValues), Lower(a, shadowValues, old(forCounter)).stmts;
        IfPrints(old(output.output), cond, body, LowerElse(b, shadowValues, n).els, output.indentationCount);
      }
      ok := ElseArm(b);
    }

    /** What follows the body of an `if`. */
    method ElseArm(b: Option<AST>) returns (ok: bool)
      modifies this, output
      ensures ok <==> IncludeFreeOpt(b)
      ensures ok ==> shadowValues == old(shadowValues) && output.indentationCount == old(output.indentationCount)
      ensures ok ==>
        var b' := LowerElse(b, shadowValues, old(forCounter));
        && forCounter == b'.counter
        && output.output == PrintElseTo(old(output.output), b'.els, output.indentationCount)
      decreases NodesOpt(b), 2
    {
      hide LineTo, BlankTo, TabsTo, PrintAllTo, PrintElseTo, LowerExpr, Lower, LowerElse, IncludeFree;
      if b.None? {
        ElsePrints(output.output, b, shadowValues, forCounter, output.indentationCount);
        output.Line(CloseLine);
        output.BlankLine();
        return true;
      }
      var t := b.value;
      assert NodesOpt(b) == Nodes(t);
      ElseIsFree(t);
      if IncludeFree(t) {
        ElsePrints(output.output, b, shadowValues, forCounter, output.indentationCount);
      }
      if t.If? {
        ok := IfBlock(t.cond, t.thenBody, t.elseBody, true);
      } else {
        output.Line(ElseLine);
        output.Indent();
        ok := Statement(t);
        if !ok { return; }
        output.Outdent();
        output.Line(CloseLine);
        output.BlankLine();
      }
    }

    method ForBlock(k: Option<string>, v: Option<string>, it: Expr, a: AST, b: Option<AST>) returns (ok: bool)
      modifies this, output
      ensures ok <==> IncludeFree(a) && IncludeFreeOpt(b)
      ensures ok ==> shadowValues == old(shadowValues) && output.indentationCount == old(output.indentationCount)
      ensures ok ==>
        var r := Lower(For(k, v, it, a, b), shadowValues, old(forCounter));
        && forCounter == r.counter
        && output.output == PrintAllTo(old(output.output), r.stmts, output.indentationCount)
      decreases 1 + Nodes(a) + NodesOpt(b), 0
    {
      hide LineTo, BlankTo, TabsTo, PrintTo, PrintAllTo, ForHeadTo, ForTailTo, LowerExpr, LoopShadow;
      forCounter := forCounter + 1;
      var n := forCounter;
      output.BlankLine();
      output.Line(DeclareLine(IterableId(n), LowerExpr(it, shadowValues)));
      if b.Some? {
        output.Line(SetFlagLine(IsEmptyId(n)));
      }
      ForHead(n, v.Some?);
      ok := ShadowedBody(k, v, n, a);
      if !ok { return; }
      ForTail(n, b.Some?);
      ok := LoopElse(n, b);
      if !ok { return; }
      ghost var a' := Lower(a, LoopShadow(shadowValues, k, v, n), n);
      PrintLoop(old(output.output), n, LowerExpr(it, shadowValues), v.Some?, a'.stmts,
                LowerOpt(b, shadowValues, a'.counter).body, output.indentationCount);
    }

    /** The `if (is_empty_n) { ... }` after a loop. */
    method LoopElse(n: nat, b: Option<AST>) returns (ok: bool)
      modifies this, output
      ensures ok <==> IncludeFreeOpt(b)
      ensures ok ==> shadowValues == old(shadowValues) && output.indentationCount == old(output.indentationCount)
      ensures ok ==>
        var r := LowerOpt(b, shadowValues, old(forCounter));
        && forCounter == r.counter
        && r.body.Some? == b.Some?
        && output.output ==
             if b.Some? then PrintTo(old(output.output), IfFlag(IsEmptyId(n), r.body.value), output.indentationCount)
             else old(output.output)
      decreases NodesOpt(b), 2
    {
      if b.Some? {
        assert NodesOpt(b) == Nodes(b.value);
        output.Line(IfLine(Local(IsEmptyId(n))));
        output.Indent();
        ok := Statement(b.value);
        if !ok { return; }
        output.Outdent();
        output.Line(CloseLine);
        output.BlankLine();
      }
      ok := true;
    }

    method ForHead(n: nat, hasValue: bool)
      modifies output
      ensures output.indentationCount == old(output.indentationCount) + 1
      ensures output.output == ForHeadTo(old(output.output), KeyId(n), IterableId(n),
                                         if hasValue then Some(ValueId(n)) else None, old(output.indentationCount))
    {
      output.Line(ForLine(KeyId(n), IterableId(n)));
      output.Indent();
      output.Line(GuardLine(KeyId(n), IterableId(n)));
      if hasValue {
        output.Line(ValueLine(ValueId(n), KeyId(n), IterableId(n)));
      }
      output.BlankLine();
    }

    method ForTail(n: nat, hasElse: bool)
      modifies output
      ensures output.indentationCount == old(output.indentationCount) - 1
      ensures output.output == ForTailTo(old(output.output), if hasElse then Some(IsEmptyId(n)) else None,
                                         output.indentationCount)
    {
      if hasElse {
        output.Line(ClearFlagLine(IsEmptyId(n)));
      }
      output.Outdent();
      output.Line(CloseLine);
      output.BlankLine();
    }

    /** Caches the shadowed names, sets those of loop n, walks the body, and restores them. */
    method ShadowedBody(k: Option<string>, v: Option<string>, n: nat, a: AST) returns (ok: bool)
      modifies this, output
      ensures ok <==> IncludeFree(a)
      ensures ok ==> shadowValues == old(shadowValues) && output.indentationCount == old(output.indentationCount)
      ensures ok ==>
        var r := Lower(a, LoopShadow(old(shadowValues), k, v, n), old(forCounter));
        && forCounter == r.counter
        && output.output == PrintAllTo(old(output.output), r.stmts, output.indentationCount)
      decreases Nodes(a), 2
    {
      hide PrintAllTo, Lower, IncludeFree;
      var keyName := if k.Some? then k.value else "";
      var valueName := if v.Some? then v.value else "";
      var oldKey := if keyName in shadowValues then Some(shadowValues[keyName]) else None;
      var oldValue := if valueName in shadowValues then Some(shadowValues[valueName]) else None;
      if k.Some? {
        shadowValues := shadowValues[keyName := KeyId(n)];
      }
      if v.Some? {
        shadowValues := shadowValues[valueName := ValueId(n)];
      }
      ok := Statement(a);
      if !ok { return; }
      if k.Some? {
        shadowValues := if oldKey.Some? then shadowValues[keyName := oldKey.value] else shadowValues - {keyName};
      }
      if v.Some? {
        shadowValues := if oldValue.Some? then shadowValues[valueName := oldValue.value]
                        else shadowValues - {valueName};
      }
    }
  }

  /** The lines of the statements of a loop, one after the other. */
  lemma PrintLoop(o: seq<Token>, m: nat, iterable: JExpr, hasValue: bool, body: seq<JStmt>, els: Option<seq<JStmt>>,
                  indent: int)
    ensures var value := if hasValue then Some(ValueId(m)) else None;
            var flag := if els.Some? then Some(IsEmptyId(m)) else None;
            var o1 := LineTo(BlankTo(o), indent, DeclareLine(IterableId(m), iterable));
            var o2 := if els.Some? then LineTo(o1, indent, SetFlagLine(IsEmptyId(m))) else o1;
            var o3 := ForTailTo(PrintAllTo(ForHeadTo(o2, KeyId(m), IterableId(m), value, indent), body, indent + 1),
                                flag, indent);
            PrintAllTo(o, Loop(m, iterable, hasValue, body, els), indent)
            == if els.Some? then PrintTo(o3, IfFlag(IsEmptyId(m), els.value), indent) else o3
  {
    var value := if hasValue then Some(ValueId(m)) else None;
    var declare := DeclareIterable(IterableId(m), iterable);
    var o1 := PrintTo(o, declare, indent);
    match els
    case None =>
      var forIn := ForIn(KeyId(m), IterableId(m), value, body, None);
      assert [declare, forIn] == [declare] + [forIn];
      PrintCons(o, declare, [forIn], indent);
      PrintCons(o1, forIn, [], indent);
    case Some(els) =>
      var flag := IsEmptyId(m);
      var forIn, ifFlag := ForIn(KeyId(m), IterableId(m), value, body, Some(flag)), IfFlag(flag, els);
      assert [declare, DeclareFlag(flag), forIn, ifFlag] == [declare] + ([DeclareFlag(flag)] + ([forIn] + [ifFlag]));
      PrintCons(o, declare, [DeclareFlag(flag)] + ([forIn] + [ifFlag]), indent);
      PrintCons(o1, DeclareFlag(flag), [forIn] + [ifFlag], indent);
      var o2 := PrintTo(o1, DeclareFlag(flag), indent);
      PrintCons(o2, forIn, [ifFlag], indent);
      PrintCons(PrintTo(o2, forIn, indent), ifFlag, [], indent);
  }
}
