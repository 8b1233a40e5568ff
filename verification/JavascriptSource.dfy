/** The lines that the JavaScript visitor writes, read as JavaScript and run.  A reader finds
    the statements by their braces alone; running them keeps the local variables and `buffer`,
    and knows nothing of the tree that was printed.  Running the printed function is proved to
    return what the template renders. */
module JavascriptSource {
  import opened Results
  import opened Ast
  import opened Semantics
  import opened Engines
  import opened Javascript
  import opened JavascriptVisitors

  // ---------- Reading ----------

  /** Statements as braces group them. */
  datatype Statement =
    | Simple(line: Code)
    | Branch(cond: JExpr, body: seq<Statement>, els: seq<Statement>)
    | Each(key: Id, iterable: Id, body: seq<Statement>)

  /** The lines of an output: tabs and line ends mean nothing. */
  function Codes(o: seq<Token>): seq<Code> {
    if o == [] then []
    else
      var before, last := Codes(o[..|o| - 1]), o[|o| - 1];
      if last.Text? then before + [last.code] else before
  }

  /** Statements that were read, and the lines after them. */
  datatype Block = Block(statements: seq<Statement>, rest: seq<Code>)

  /** The statements up to a closing brace, or to the end; None for a syntax error. */
  function ReadBlock(l: seq<Code>): (r: Option<Block>)
    ensures r.Some? ==> |r.value.rest| <= |l|
    decreases |l|, 1
  {
    if l == [] || Closes(l[0]) then Some(Block([], l))
    else
      var first := ReadStatement(l);
      if first.None? then None
      else
        var others := ReadBlock(first.value.rest);
        if others.None? then None
        else Some(Block(first.value.statements + others.value.statements, others.value.rest))
  }

  function ReadStatement(l: seq<Code>): (r: Option<Block>)
    requires l != []
    ensures r.Some? ==> |r.value.rest| < |l|
    decreases |l|, 0
  {
    match l[0]
    case IfLine(e) => ReadBranch(e, l[1..])
    case ForLine(k, it) =>
      var body := ReadBraced(l[1..]);
      if body.None? then None else Some(Block([Each(k, it, body.value.statements)], body.value.rest))
    case c => if Opens(c) || Closes(c) then None else Some(Block([Simple(c)], l[1..]))
  }

  /** The statements up to the brace that only closes, and what comes after it. */
  function ReadBraced(l: seq<Code>): (r: Option<Block>)
    ensures r.Some? ==> |r.value.rest| < |l|
    decreases |l|, 2
  {
    var body := ReadBlock(l);
    if body.None? || body.value.rest == [] || !body.value.rest[0].CloseLine? then None
    else Some(body.value.(rest := body.value.rest[1..]))
  }

  /** What follows `if (e) {`. */
  function ReadBranch(e: JExpr, l: seq<Code>): (r: Option<Block>)
    ensures r.Some? ==> |r.value.rest| < |l|
    decreases |l|, 3
  {
    var body := ReadBlock(l);
    if body.None? || body.value.rest == [] then None
    else
      var after := body.value.rest[1..];
      match body.value.rest[0]
      case CloseLine => Some(Block([Branch(e, body.value.statements, [])], after))
      case ElseLine => Otherwise(e, body.value.statements, ReadBraced(after))
      case ElseIfLine(d) => Otherwise(e, body.value.statements, ReadBranch(d, after))
      case _ => None
  }

  function Otherwise(e: JExpr, body: seq<Statement>, els: Option<Block>): (r: Option<Block>)
    ensures r.Some? ==> els.Some? && r.value.rest == els.value.rest
  {
    if els.None? then None else Some(Block([Branch(e, body, els.value.statements)], els.value.rest))
  }

  /** The body of a function. */
  function ReadFunction(o: seq<Token>): Option<seq<Statement>> {
    var l := Codes(o);
    if l == [] || !l[0].FunctionLine? then None
    else
      var body := ReadBraced(l[1..]);
      if body.None? || body.value.rest != [] then None else Some(body.value.statements)
  }

  // ---------- Running ----------

  /** The local variables, `buffer` and `data`; None stands for undefined. */
  datatype State = State(locals: map<Id, Value>, buffer: Option<string>, data: Option<Env>)

  /** How running a statement ends (section 8.9 of ECMAScript 5.1). */
  datatype Completion =
    | Normal(state: State)
    | Continue(state: State)
    | Return(text: Option<string>)
    | Throw(state: State)

  /** What `data['x']` gives: of undefined it throws. */
  function Fields(data: Option<Env>): Env {
    if data.Some? then data.value else (x: string) => None
  }

  /** `{}` has what every object inherits. */
  function EmptyObject(j: Engine): Env {
    (x: string) => Some(j.inherited(Table([]), x))
  }

  function Evaluated(j: Engine, e: JExpr, st: State): Option<Value> {
    JEval(j, Fields(st.data), e, st.locals)
  }

  function Assign(st: State, id: Id, v: Value): State {
    st.(locals := st.locals[id := v])
  }

  /** A property of v under any key. */
  function Element(j: Engine, v: Value, key: Value): Value {
    var own := OwnValue(Own(j, v), key);
    if own.Some? then own.value else if key.Str? then j.inherited(v, key.s) else Null
  }

  function RunLine(j: Engine, c: Code, st: State): Completion {
    match c
    case AppendLine(e) =>
      (match Evaluated(j, e, st)
       case None => Throw(st)
       case Some(v) =>
         var before := if st.buffer.Some? then st.buffer.value else "undefined";
         Normal(st.(buffer := Some(before + Show(j.lib, v)))))
    case DeclareLine(id, e) =>
      (match Evaluated(j, e, st)
       case None => Throw(st)
       case Some(v) => Normal(Assign(st, id, v)))
    case SetFlagLine(id) => Normal(Assign(st, id, Bool(true)))
    case ClearFlagLine(id) => Normal(Assign(st, id, Bool(false)))
    case GuardLine(k, it) =>
      var v := Held(st.locals, it);
      if v.Null? then Throw(st)
      else if OwnValue(Own(j, v), Held(st.locals, k)).Some? then Normal(st) else Continue(st)
    case ValueLine(id, k, it) =>
      var v := Held(st.locals, it);
      if v.Null? then Throw(st) else Normal(Assign(st, id, Element(j, v, Held(st.locals, k))))
    case DefaultDataLine => Normal(if st.data.Some? then st else st.(data := Some(EmptyObject(j))))
    case BufferLine => Normal(st.(buffer := Some("")))
    case ReturnLine => Return(st.buffer)
    case _ => Throw(st)  // no statement
  }

  function RunStatement(j: Engine, s: Statement, st: State): Completion
    decreases s, 0
  {
    match s
    case Simple(c) => RunLine(j, c, st)
    case Branch(e, a, b) =>
      (match Evaluated(j, e, st)
       case None => Throw(st)
       case Some(v) => if IsTrue(j.lib, v) then RunBlock(j, a, st) else RunBlock(j, b, st))
    case Each(k, it, body) => RunEach(j, k, Keys(j, Held(st.locals, it)), body, st)
  }

  function RunBlock(j: Engine, l: seq<Statement>, st: State): Completion
    decreases l, 0
  {
    if l == [] then Normal(st)
    else
      var first := RunStatement(j, l[0], st);
      if first.Normal? then RunBlock(j, l[1..], first.state) else first
  }

  /** The rounds of `for (var k in ...)`, for the keys that are left. */
  function RunEach(j: Engine, k: Id, keys: seq<Value>, body: seq<Statement>, st: State): Completion
    decreases body, 1, |keys|
  {
    if keys == [] then Normal(st)
    else
      var round := RunBlock(j, body, Assign(st, k, keys[0]));
      if round.Normal? || round.Continue? then RunEach(j, k, keys[1..], body, round.state) else round
  }

  /** Calling the function with or without data; None if it cannot be read. */
  function RunFunction(j: Engine, o: seq<Token>, data: Option<Env>): Option<Completion> {
    match ReadFunction(o)
    case None => None
    case Some(l) => Some(RunBlock(j, l, State(map[], None, data)))
  }

  // ---------- The lines of a tree ----------

  function Lines(s: JStmt): seq<Code>
    decreases s
  {
    match s
    case Append(e) => [AppendLine(e)]
    case DeclareIterable(id, e) => [DeclareLine(id, e)]
    case DeclareFlag(id) => [SetFlagLine(id)]
    case JIf(c, a, b) => [IfLine(c)] + (LinesAll(a) + ElseLines(b))
    case ForIn(k, it, v, body, flag) =>
      [ForLine(k, it)] + (HeadLines(k, it, v) + (LinesAll(body) + (FlagLines(flag) + [CloseLine])))
    case IfFlag(id, body) => [IfLine(Local(id))] + (LinesAll(body) + [CloseLine])
  }

  function HeadLines(k: Id, it: Id, v: Option<Id>): seq<Code> {
    [GuardLine(k, it)] + (if v.Some? then [ValueLine(v.value, k, it)] else [])
  }

  function FlagLines(flag: Option<Id>): seq<Code> {
    if flag.Some? then [ClearFlagLine(flag.value)] else []
  }

  function ElseLines(s: JElse): seq<Code>
    decreases s
  {
    match s
    case NoElse => [CloseLine]
    case Else(b) => [ElseLine] + (LinesAll(b) + [CloseLine])
    case ElseIf(c, a, b) => [ElseIfLine(c)] + (LinesAll(a) + ElseLines(b))
  }

  function LinesAll(l: seq<JStmt>): seq<Code>
    decreases l
  {
    if l == [] then [] else Lines(l[0]) + LinesAll(l[1..])
  }

  lemma {:induction false} TabsMeanNothing(o: seq<Token>, n: int)
    ensures Codes(TabsTo(o, n)) == Codes(o)
    decreases if n <= 0 then 0 else n
  {
    if n > 0 {
      TabsMeanNothing(o, n - 1);
      var t := TabsTo(o, n - 1);
      assert (t + [Tab])[..|t|] == t;
    }
  }

  lemma CodesOfLine(o: seq<Token>, n: int, c: Code)
    ensures Codes(LineTo(o, n, c)) == Codes(o) + [c]
    ensures Codes(BlankTo(o)) == Codes(o)
  {
    TabsMeanNothing(o, n);
    var t := TabsTo(o, n);
    assert (t + [Text(c)])[..|t|] == t;
    assert BlankTo(t + [Text(c)])[..|t| + 1] == t + [Text(c)];
    assert BlankTo(o)[..|o|] == o;
  }

  lemma CodesOfHead(o: seq<Token>, k: Id, it: Id, v: Option<Id>, n: int)
    ensures Codes(ForHeadTo(o, k, it, v, n)) == Codes(o) + ([ForLine(k, it)] + HeadLines(k, it, v))
  {
    hide Codes, LineTo, BlankTo;
    var o1 := LineTo(o, n, ForLine(k, it));
    var o2 := LineTo(o1, n + 1, GuardLine(k, it));
    CodesOfLine(o, n, ForLine(k, it));
    CodesOfLine(o1, n + 1, GuardLine(k, it));
    CodesOfLine(o2, n, CloseLine);
    if v.Some? {
      CodesOfLine(o2, n + 1, ValueLine(v.value, k, it));
      CodesOfLine(LineTo(o2, n + 1, ValueLine(v.value, k, it)), n, CloseLine);
    }
  }

  lemma CodesOfTail(o: seq<Token>, flag: Option<Id>, n: int)
    ensures Codes(ForTailTo(o, flag, n)) == Codes(o) + (FlagLines(flag) + [CloseLine])
    ensures Codes(CloseTo(o, n)) == Codes(o) + [CloseLine]
  {
    hide Codes, LineTo, BlankTo;
    var o1 := if flag.Some? then LineTo(o, n + 1, ClearFlagLine(flag.value)) else o;
    if flag.Some? {
      CodesOfLine(o, n + 1, ClearFlagLine(flag.value));
    }
    CodesOfLine(o1, n, CloseLine);
    CodesOfLine(LineTo(o1, n, CloseLine), n, CloseLine);
    CodesOfLine(o, n, CloseLine);
    CodesOfLine(LineTo(o, n, CloseLine), n, CloseLine);
  }

  lemma {:induction false} CodesOfPrint(o: seq<Token>, s: JStmt, n: int)
    ensures Codes(PrintTo(o, s, n)) == Codes(o) + Lines(s)
    decreases s, 0
  {
    hide Codes, LineTo, BlankTo, CloseTo, ForHeadTo, ForTailTo, PrintAllTo, PrintElseTo, LinesAll, ElseLines,
         HeadLines, FlagLines;
    match s
    case Append(e) => CodesOfLine(o, n, AppendLine(e));
    case DeclareIterable(id, e) =>
      CodesOfLine(o, n, CloseLine);
      CodesOfLine(BlankTo(o), n, DeclareLine(id, e));
    case DeclareFlag(id) => CodesOfLine(o, n, SetFlagLine(id));
    case JIf(c, a, b) =>
      CodesOfLine(o, n, CloseLine);
      CodesOfLine(BlankTo(o), n, IfLine(c));
      CodesOfAll(LineTo(BlankTo(o), n, IfLine(c)), a, n + 1);
      CodesOfElse(PrintAllTo(LineTo(BlankTo(o), n, IfLine(c)), a, n + 1), b, n);
    case ForIn(k, it, v, body, flag) =>
      CodesOfHead(o, k, it, v, n);
      CodesOfAll(ForHeadTo(o, k, it, v, n), body, n + 1);
      CodesOfTail(PrintAllTo(ForHeadTo(o, k, it, v, n), body, n + 1), flag, n);
    case IfFlag(id, body) =>
      CodesOfLine(o, n, IfLine(Local(id)));
      CodesOfAll(LineTo(o, n, IfLine(Local(id))), body, n + 1);
      CodesOfTail(PrintAllTo(LineTo(o, n, IfLine(Local(id))), body, n + 1), None, n);
  }

  lemma {:induction false} CodesOfElse(o: seq<Token>, s: JElse, n: int)
    ensures Codes(PrintElseTo(o, s, n)) == Codes(o) + ElseLines(s)
    decreases s, 0
  {
    hide Codes, LineTo, BlankTo, CloseTo, PrintAllTo, LinesAll;
    match s
    case NoElse => CodesOfTail(o, None, n);
    case Else(b) =>
      CodesOfLine(o, n, ElseLine);
      CodesOfAll(LineTo(o, n, ElseLine), b, n + 1);
      CodesOfTail(PrintAllTo(LineTo(o, n, ElseLine), b, n + 1), None, n);
    case ElseIf(c, a, b) =>
      CodesOfLine(o, n, ElseIfLine(c));
      CodesOfAll(LineTo(o, n, ElseIfLine(c)), a, n + 1);
      CodesOfElse(PrintAllTo(LineTo(o, n, ElseIfLine(c)), a, n + 1), b, n);
  }

  lemma {:induction false} CodesOfAll(o: seq<Token>, l: seq<JStmt>, n: int)
    ensures Codes(PrintAllTo(o, l, n)) == Codes(o) + LinesAll(l)
    decreases l, 0
  {
    if l != [] {
      CodesOfPrint(o, l[0], n);
      CodesOfAll(PrintTo(o, l[0], n), l[1..], n);
    }
  }

  // ---------- What is read ----------

  function Source(s: JStmt): Statement
    decreases s
  {
    match s
    case Append(e) => Simple(AppendLine(e))
    case DeclareIterable(id, e) => Simple(DeclareLine(id, e))
    case DeclareFlag(id) => Simple(SetFlagLine(id))
    case JIf(c, a, b) => Branch(c, SourceAll(a), SourceElse(b))
    case ForIn(k, it, v, body, flag) =>
      Each(k, it, Simples(HeadLines(k, it, v)) + (SourceAll(body) + Simples(FlagLines(flag))))
    case IfFlag(id, body) => Branch(Local(id), SourceAll(body), [])
  }

  function SourceElse(s: JElse): seq<Statement>
    decreases s
  {
    match s
    case NoElse => []
    case Else(b) => SourceAll(b)
    case ElseIf(c, a, b) => [Branch(c, SourceAll(a), SourceElse(b))]
  }

  function SourceAll(l: seq<JStmt>): seq<Statement>
    decreases l
  {
    if l == [] then [] else [Source(l[0])] + SourceAll(l[1..])
  }

  function Simples(l: seq<Code>): seq<Statement> {
    if l == [] then [] else [Simple(l[0])] + Simples(l[1..])
  }

  lemma ReadStep(l: seq<Code>, s: Statement, rest: seq<Code>)
    requires l != [] && !Closes(l[0]) && ReadStatement(l) == Some(Block([s], rest))
    ensures var b := ReadBlock(rest);
            b.Some? ==> ReadBlock(l) == Some(Block([s] + b.value.statements, b.value.rest))
  {
    hide ReadStatement;
  }

  lemma {:induction false} ReadsSimples(l: seq<Code>, rest: seq<Code>)
    requires forall c :: c in l ==> !Opens(c) && !Closes(c)
    ensures var b := ReadBlock(rest);
            b.Some? ==> ReadBlock(l + rest) == Some(Block(Simples(l) + b.value.statements, b.value.rest))
    decreases l
  {
    if l == [] {
      assert l + rest == rest;
      assert forall b: seq<Statement> :: [] + b == b;
    } else {
      ReadsSimples(l[1..], rest);
      assert (l + rest)[1..] == l[1..] + rest && l[0] in l;
      assert ReadStatement(l + rest) == Some(Block([Simple(l[0])], l[1..] + rest));
      ReadStep(l + rest, Simple(l[0]), l[1..] + rest);
      var b := ReadBlock(rest);
      if b.Some? {
        assert [Simple(l[0])] + (Simples(l[1..]) + b.value.statements) == Simples(l) + b.value.statements;
      }
    }
  }

  /** Reading the lines of a statement gives the statement, whatever follows it. */
  lemma {:induction false} ReadsStatement(s: JStmt, rest: seq<Code>)
    ensures Lines(s) != [] && !Closes(Lines(s)[0])
    ensures ReadStatement(Lines(s) + rest) == Some(Block([Source(s)], rest))
    decreases s, 1
  {
    hide ReadBlock, ReadStatement, ReadBranch, ReadBraced, LinesAll, ElseLines, HeadLines, FlagLines, SourceAll,
         SourceElse, Simples;
    match s
    case JIf(c, a, b) =>
      var l := LinesAll(a) + (ElseLines(b) + rest);
      assert Lines(s) + rest == [IfLine(c)] + l;
      ElseLinesClose(b);
      ReadsBody(a, ElseLines(b) + rest);
      ReadsElse(c, b, l, SourceAll(a), rest);
      FirstDecides(IfLine(c), l);
    case ForIn(k, it, v, body, flag) =>
      var l := HeadLines(k, it, v) + (LinesAll(body) + (FlagLines(flag) + ([CloseLine] + rest)));
      assert Lines(s) + rest == [ForLine(k, it)] + l;
      ReadsRound(k, it, v, body, flag, rest);
      FirstDecides(ForLine(k, it), l);
    case IfFlag(id, body) =>
      var l := LinesAll(body) + ([CloseLine] + rest);
      assert Lines(s) + rest == [IfLine(Local(id))] + l;
      ReadsBody(body, [CloseLine] + rest);
      ReadsEnd(Local(id), l, SourceAll(body), rest);
      FirstDecides(IfLine(Local(id)), l);
    case _ => FirstDecides(Lines(s)[0], rest);
  }

  /** The first line says what kind of statement is read. */
  lemma FirstDecides(c: Code, l: seq<Code>)
    ensures c.IfLine? ==> ReadStatement([c] + l) == ReadBranch(c.e, l)
    ensures c.ForLine? && ReadBraced(l).Some? ==>
              ReadStatement([c] + l)
              == Some(Block([Each(c.key, c.iterable, ReadBraced(l).value.statements)], ReadBraced(l).value.rest))
    ensures !Opens(c) && !Closes(c) ==> ReadStatement([c] + l) == Some(Block([Simple(c)], l))
  {
    hide ReadBranch, ReadBraced;
    assert ([c] + l)[1..] == l;
  }

  lemma ElseLinesClose(s: JElse)
    ensures ElseLines(s) != [] && Closes(ElseLines(s)[0])
  {
  }

  /** The statements before a closing line. */
  lemma {:induction false} ReadsBody(l: seq<JStmt>, rest: seq<Code>)
    requires rest != [] && Closes(rest[0])
    ensures ReadBlock(LinesAll(l) + rest) == Some(Block(SourceAll(l), rest))
    decreases l, 2
  {
    ReadsAll(l, rest);
    assert SourceAll(l) + [] == SourceAll(l);
  }

  lemma {:induction false} ReadsAll(l: seq<JStmt>, rest: seq<Code>)
    ensures var b := ReadBlock(rest);
            b.Some? ==> ReadBlock(LinesAll(l) + rest) == Some(Block(SourceAll(l) + b.value.statements, b.value.rest))
    decreases l, 1
  {
    hide ReadBlock, ReadStatement, Lines, Source;
    if l == [] {
      assert LinesAll(l) + rest == rest;
      assert forall b: seq<Statement> :: [] + b == b;
    } else {
      var others := LinesAll(l[1..]) + rest;
      ReadsAll(l[1..], rest);
      ReadsStatement(l[0], others);
      assert LinesAll(l) + rest == Lines(l[0]) + others;
      ReadStep(LinesAll(l) + rest, Source(l[0]), others);
      var b := ReadBlock(rest);
      if b.Some? {
        assert [Source(l[0])] + (SourceAll(l[1..]) + b.value.statements) == SourceAll(l) + b.value.statements;
      }
    }
  }

  /** The lines of one round of a loop, up to the closing brace. */
  lemma {:induction false} ReadsRound(k: Id, it: Id, v: Option<Id>, body: seq<JStmt>, flag: Option<Id>,
                                      rest: seq<Code>)
    ensures ReadBraced(HeadLines(k, it, v) + (LinesAll(body) + (FlagLines(flag) + ([CloseLine] + rest))))
         == Some(Block(Simples(HeadLines(k, it, v)) + (SourceAll(body) + Simples(FlagLines(flag))), rest))
    decreases body, 2
  {
    hide LinesAll, SourceAll, Simples;
    var end := [CloseLine] + rest;
    assert ReadBlock(end) == Some(Block([], end));
    ReadsSimples(FlagLines(flag), end);
    assert Simples(FlagLines(flag)) + [] == Simples(FlagLines(flag));
    ReadsAll(body, FlagLines(flag) + end);
    ReadsSimples(HeadLines(k, it, v), LinesAll(body) + (FlagLines(flag) + end));
    hide ReadBlock, HeadLines, FlagLines;
    assert end[1..] == rest;
  }

  lemma ReadsEnd(c: JExpr, l: seq<Code>, body: seq<Statement>, rest: seq<Code>)
    requires ReadBlock(l) == Some(Block(body, [CloseLine] + rest))
    ensures ReadBranch(c, l) == Some(Block([Branch(c, body, [])], rest))
    ensures ReadBraced(l) == Some(Block(body, rest))
  {
    hide ReadBlock;
    assert ([CloseLine] + rest)[1..] == rest;
  }

  /** What follows the body of an `if`, through chains of any length. */
  lemma {:induction false} ReadsElse(c: JExpr, s: JElse, l: seq<Code>, body: seq<Statement>, rest: seq<Code>)
    requires ReadBlock(l) == Some(Block(body, ElseLines(s) + rest))
    ensures ReadBranch(c, l) == Some(Block([Branch(c, body, SourceElse(s))], rest))
    decreases s, 3
  {
    hide ReadBlock, ReadBraced, LinesAll, SourceAll;
    match s
    case NoElse => ReadsEnd(c, l, body, rest);
    case Else(b) =>
      var after := LinesAll(b) + ([CloseLine] + rest);
      assert ElseLines(s) + rest == [ElseLine] + after;
      ReadsBody(b, [CloseLine] + rest);
      ReadsEnd(c, after, SourceAll(b), rest);
    case ElseIf(d, a, b) =>
      var after := LinesAll(a) + (ElseLines(b) + rest);
      assert ElseLines(s) + rest == [ElseIfLine(d)] + after;
      ElseLinesClose(b);
      ReadsBody(a, ElseLines(b) + rest);
      ReadsElse(d, b, after, SourceAll(a), rest);
  }

  function FunctionSource(l: seq<JStmt>): seq<Statement> {
    [Simple(DefaultDataLine), Simple(BufferLine)] + (SourceAll(l) + [Simple(ReturnLine)])
  }

  /** The whole function can be read, and reading it gives header, statements and footer. */
  lemma FunctionReads(l: seq<JStmt>)
    ensures ReadFunction(FunctionTo([], l, 0)) == Some(FunctionSource(l))
  {
    var end := [ReturnLine, CloseLine];
    FunctionCodes(l);
    hide Codes, FunctionTo, LinesAll, SourceAll;
    assert Simples([ReturnLine]) == [Simple(ReturnLine)];
    assert Simples([DefaultDataLine, BufferLine]) == [Simple(DefaultDataLine), Simple(BufferLine)] by {
      assert [DefaultDataLine, BufferLine][1..] == [BufferLine];
      assert [BufferLine][1..] == [];
    }
    assert ReadBlock([CloseLine]) == Some(Block([], [CloseLine]));
    assert [ReturnLine] + [CloseLine] == end && [Simple(ReturnLine)] + [] == [Simple(ReturnLine)];
    ReadsSimples([ReturnLine], [CloseLine]);
    ReadsAll(l, end);
    ReadsSimples([DefaultDataLine, BufferLine], LinesAll(l) + end);
    var body := [DefaultDataLine, BufferLine] + (LinesAll(l) + end);
    assert ([FunctionLine] + body)[1..] == body;
    assert [CloseLine] + [] == [CloseLine];
    ReadsEnd(Local(KeyId(0)), body, FunctionSource(l), []);
  }

  lemma FunctionCodes(l: seq<JStmt>)
    ensures Codes(FunctionTo([], l, 0))
         == [FunctionLine] + ([DefaultDataLine, BufferLine] + (LinesAll(l) + [ReturnLine, CloseLine]))
  {
    HeaderCodes();
    hide Codes, HeaderTo, FooterTo, PrintAllTo, LinesAll;
    CodesOfAll(HeaderTo([], 0), l, 1);
    FooterCodes(PrintAllTo(HeaderTo([], 0), l, 1));
    assert [FunctionLine, DefaultDataLine, BufferLine] == [FunctionLine] + [DefaultDataLine, BufferLine];
  }

  lemma NoCodes()
    ensures Codes([]) == []
  {
  }

  lemma HeaderCodes()
    ensures Codes(HeaderTo([], 0)) == [FunctionLine, DefaultDataLine, BufferLine]
  {
    hide Codes, LineTo, BlankTo;
    NoCodes();
    var o1 := LineTo([], 0, FunctionLine);
    var o2 := LineTo(o1, 1, DefaultDataLine);
    CodesOfLine([], 0, FunctionLine);
    CodesOfLine(o1, 1, DefaultDataLine);
    CodesOfLine(o2, 1, BufferLine);
    CodesOfLine(LineTo(o2, 1, BufferLine), 1, BufferLine);
  }

  lemma FooterCodes(o: seq<Token>)
    ensures Codes(FooterTo(o, 0)) == Codes(o) + [ReturnLine, CloseLine]
  {
    hide Codes, LineTo, BlankTo;
    CodesOfLine(o, 1, ReturnLine);
    CodesOfLine(BlankTo(o), 1, ReturnLine);
    CodesOfLine(LineTo(BlankTo(o), 1, ReturnLine), 0, CloseLine);
  }

  // ---------- Running what is read ----------

  /** The completion that a run of the tree predicts. */
  ghost function After(st: State, r: Run): Completion
    requires st.buffer.Some?
  {
    var st' := st.(locals := r.locals, buffer := Some(st.buffer.value + r.out.text));
    if r.out.ok then Normal(st') else Throw(st')
  }

  lemma AfterNothing(st: State)
    requires st.buffer.Some?
    ensures After(st, Run(st.locals, NOTHING)) == Normal(st)
    ensures forall locals :: After(st, Run(locals, FAILED)) == Throw(st.(locals := locals))
    ensures forall id, v :: After(st, Run(st.locals[id := v], NOTHING)) == Normal(Assign(st, id, v))
  {
    assert st.buffer.value + "" == st.buffer.value;
  }

  lemma AfterThen(st: State, a: Run, b: Run)
    requires st.buffer.Some? && a.out.ok
    ensures After(st, Run(b.locals, Then(a.out, b.out))) == After(After(st, a).state, b)
  {
    assert st.buffer.value + (a.out.text + b.out.text) == st.buffer.value + a.out.text + b.out.text;
  }

  lemma {:induction false} RunConcat(j: Engine, a: seq<Statement>, b: seq<Statement>, st: State)
    ensures var r := RunBlock(j, a, st);
            RunBlock(j, a + b, st) == if r.Normal? then RunBlock(j, b, r.state) else r
    decreases a
  {
    if a == [] {
      assert a + b == b;
    } else {
      assert (a + b)[1..] == a[1..] + b;
      var first := RunStatement(j, a[0], st);
      if first.Normal? {
        RunConcat(j, a[1..], b, first.state);
      }
    }
  }

  lemma RunOne(j: Engine, s: Statement, st: State)
    ensures RunBlock(j, [s], st) == RunStatement(j, s, st)
  {
    assert [s][1..] == [];
  }

  /** What was read of a statement does what the statement does. */
  lemma {:induction false} RunsStatement(j: Engine, data: Env, s: JStmt, st: State)
    requires st.buffer.Some? && st.data == Some(data)
    ensures RunStatement(j, Source(s), st) == After(st, Exec(j, data, s, st.locals))
    decreases s, 1, 0
  {
    AfterNothing(st);
    match s
    case JIf(c, a, b) =>
      RunsAll(j, data, a, st);
      RunsElse(j, data, b, st);
      RunsIf(j, data, c, a, b, st);
    case ForIn(k, it, v, body, flag) => RunsEach(j, data, k, it, v, Keys(j, Held(st.locals, it)), body, flag, st);
    case IfFlag(id, body) => RunsAll(j, data, body, st);
    case _ =>
  }

  lemma BranchUnfolds(j: Engine, c: JExpr, a: seq<Statement>, b: seq<Statement>, st: State)
    ensures var v := Evaluated(j, c, st);
            RunStatement(j, Branch(c, a, b), st)
            == if v.None? then Throw(st) else if IsTrue(j.lib, v.value) then RunBlock(j, a, st) else RunBlock(j, b, st)
  {
    hide RunBlock, Evaluated, IsTrue;
  }

  lemma IfUnfolds(j: Engine, data: Env, c: JExpr, a: seq<JStmt>, b: JElse, locals: map<Id, Value>)
    ensures var v := JEval(j, data, c, locals);
            var r := if v.None? then Run(locals, FAILED)
                     else if IsTrue(j.lib, v.value) then ExecAll(j, data, a, locals)
                     else ExecElse(j, data, b, locals);
            Exec(j, data, JIf(c, a, b), locals) == r && ExecElse(j, data, ElseIf(c, a, b), locals) == r
  {
    hide ExecAll, JEval, IsTrue;
  }

  /** An `if`, whether it starts a chain or continues one. */
  lemma RunsIf(j: Engine, data: Env, c: JExpr, a: seq<JStmt>, b: JElse, st: State)
    requires st.buffer.Some? && st.data == Some(data)
    requires RunBlock(j, SourceAll(a), st) == After(st, ExecAll(j, data, a, st.locals))
    requires RunBlock(j, SourceElse(b), st) == After(st, ExecElse(j, data, b, st.locals))
    ensures var r := RunStatement(j, Branch(c, SourceAll(a), SourceElse(b)), st);
            && r == After(st, Exec(j, data, JIf(c, a, b), st.locals))
            && r == After(st, ExecElse(j, data, ElseIf(c, a, b), st.locals))
  {
    hide ExecAll, Exec, ExecElse, RunStatement, RunBlock, SourceAll, SourceElse, JEval, IsTrue, After;
    AfterNothing(st);
    BranchUnfolds(j, c, SourceAll(a), SourceElse(b), st);
    IfUnfolds(j, data, c, a, b, st.locals);
  }

  lemma {:induction false} RunsElse(j: Engine, data: Env, s: JElse, st: State)
    requires st.buffer.Some? && st.data == Some(data)
    ensures RunBlock(j, SourceElse(s), st) == After(st, ExecElse(j, data, s, st.locals))
    decreases s, 1, 0
  {
    match s
    case NoElse => AfterNothing(st);
    case Else(b) => RunsAll(j, data, b, st);
    case ElseIf(c, a, b) =>
      RunOne(j, Branch(c, SourceAll(a), SourceElse(b)), st);
      RunsAll(j, data, a, st);
      RunsElse(j, data, b, st);
      RunsIf(j, data, c, a, b, st);
  }

  lemma {:induction false} RunsAll(j: Engine, data: Env, l: seq<JStmt>, st: State)
    requires st.buffer.Some? && st.data == Some(data)
    ensures RunBlock(j, SourceAll(l), st) == After(st, ExecAll(j, data, l, st.locals))
    decreases l, 1, 0
  {
    hide Source, RunStatement, Exec;
    AfterNothing(st);
    if l != [] {
      assert SourceAll(l)[1..] == SourceAll(l[1..]);
      RunsStatement(j, data, l[0], st);
      var a := Exec(j, data, l[0], st.locals);
      if a.out.ok {
        var first := After(st, a).state;
        RunsAll(j, data, l[1..], first);
        AfterThen(st, a, ExecAll(j, data, l[1..], a.locals));
      }
    }
  }

  /** The start of a round: the property is tested, and its value declared. */
  lemma RunsHead(j: Engine, k: Id, it: Id, v: Option<Id>, key: Value, st: State)
    ensures var at := Assign(st, k, key);
            var source := Held(at.locals, it);
            var value := OwnValue(Own(j, source), key);
            RunBlock(j, Simples(HeadLines(k, it, v)), at)
            == if source.Null? then Throw(at)
               else if value.None? then Continue(at)
               else Normal(st.(locals := Iteration(k, v, Entry(key, value.value), st.locals)))
  {
    hide Own, OwnValue;
    var at, guard := Assign(st, k, key), GuardLine(k, it);
    assert HeadLines(k, it, v)[1..] == if v.Some? then [ValueLine(v.value, k, it)] else [];
    assert Simples(HeadLines(k, it, v))[1..] == Simples(HeadLines(k, it, v)[1..]);
    if v.Some? {
      var line := ValueLine(v.value, k, it);
      assert [line][1..] == [] && Simples([line]) == [Simple(line)];
      RunOne(j, Simple(line), at);
    }
  }

  lemma RunsTail(j: Engine, flag: Option<Id>, st: State)
    ensures RunBlock(j, Simples(FlagLines(flag)), st) == Normal(st.(locals := Cleared(st.locals, flag)))
  {
    if flag.Some? {
      var line := ClearFlagLine(flag.value);
      assert [line][1..] == [] && Simples([line]) == [Simple(line)];
      RunOne(j, Simple(line), st);
    }
  }

  /** One round, for a key that is tested and for an own one. */
  lemma RunsRound(j: Engine, k: Id, it: Id, v: Option<Id>, key: Value, body: seq<Statement>, flag: Option<Id>,
                  st: State)
    ensures var at := Assign(st, k, key);
            var source := Held(at.locals, it);
            var value := OwnValue(Own(j, source), key);
            var round := RunBlock(j, Simples(HeadLines(k, it, v)) + (body + Simples(FlagLines(flag))), at);
            if source.Null? then round == Throw(at)
            else if value.None? then round == Continue(at)
            else
              var r := RunBlock(j, body, st.(locals := Iteration(k, v, Entry(key, value.value), st.locals)));
              round == if r.Normal? then Normal(r.state.(locals := Cleared(r.state.locals, flag))) else r
  {
    hide RunBlock, Simples, HeadLines, FlagLines, Own, OwnValue, Iteration, Cleared;
    var at := Assign(st, k, key);
    RunsHead(j, k, it, v, key, st);
    RunConcat(j, Simples(HeadLines(k, it, v)), body + Simples(FlagLines(flag)), at);
    var head := RunBlock(j, Simples(HeadLines(k, it, v)), at);
    if head.Normal? {
      RunConcat(j, body, Simples(FlagLines(flag)), head.state);
      var r := RunBlock(j, body, head.state);
      if r.Normal? {
        RunsTail(j, flag, r.state);
      }
    }
  }

  /** A `for` goes through its keys as the tree's loop does, and `continue` skips the keys that
      are not own ones. */
  lemma {:induction false} RunsEach(j: Engine, data: Env, k: Id, it: Id, v: Option<Id>, keys: seq<Value>,
                                    body: seq<JStmt>, flag: Option<Id>, st: State)
    requires st.buffer.Some? && st.data == Some(data)
    ensures RunEach(j, k, keys, Simples(HeadLines(k, it, v)) + (SourceAll(body) + Simples(FlagLines(flag))), st)
         == After(st, ExecLoop(j, data, k, it, v, keys, body, flag, st.locals))
    decreases body, 2, |keys|
  {
    hide RunBlock, ExecAll, SourceAll, Simples, HeadLines, FlagLines, Own, OwnValue, Iteration, Cleared, Then, After;
    AfterNothing(st);
    if keys != [] {
      var at := Assign(st, k, keys[0]);
      RunsRound(j, k, it, v, keys[0], SourceAll(body), flag, st);
      var source := Held(at.locals, it);
      var value := OwnValue(Own(j, source), keys[0]);
      if !source.Null? && value.None? {
        RunsEach(j, data, k, it, v, keys[1..], body, flag, at);
        AfterLocals(st, at.locals, ExecLoop(j, data, k, it, v, keys[1..], body, flag, at.locals));
      } else if !source.Null? {
        var before := st.(locals := Iteration(k, v, Entry(keys[0], value.value), st.locals));
        RunsAll(j, data, body, before);
        var a := ExecAll(j, data, body, before.locals);
        AfterLocals(st, before.locals, a);
        if a.out.ok {
          var next := After(st, a).state.(locals := Cleared(a.locals, flag));
          var rest := ExecLoop(j, data, k, it, v, keys[1..], body, flag, next.locals);
          RunsEach(j, data, k, it, v, keys[1..], body, flag, next);
          AfterThen(st, a, rest);
          AfterLocals(After(st, a).state, next.locals, rest);
        }
      }
    }
  }

  /** What a run predicts does not depend on the locals before it. */
  lemma AfterLocals(st: State, locals: map<Id, Value>, r: Run)
    requires st.buffer.Some?
    ensures After(st.(locals := locals), r) == After(st, r)
    ensures After(st, r).Normal? <==> r.out.ok
    ensures !r.out.ok ==> After(st, r).Throw?
    ensures var st' := if r.out.ok then After(st, r).state else st;
            st'.buffer.Some? && st'.data == st.data && (r.out.ok ==> st'.locals == r.locals)
  {
  }

  /** The whole function: what the tree appends to its buffer is returned at the end. */
  lemma FunctionRuns(j: Engine, l: seq<JStmt>, arg: Option<Env>)
    ensures var data := if arg.Some? then arg.value else EmptyObject(j);
            var r := ExecAll(j, data, l, map[]);
            RunFunction(j, FunctionTo([], l, 0), arg)
            == Some(if r.out.ok then Return(Some(r.out.text)) else Throw(State(r.locals, Some(r.out.text), Some(data))))
  {
    hide RunBlock, SourceAll, FunctionTo, ExecAll;
    var data := if arg.Some? then arg.value else EmptyObject(j);
    var st := State(map[], Some(""), Some(data));
    FunctionReads(l);
    HeaderRuns(j, arg, SourceAll(l) + [Simple(ReturnLine)]);
    RunConcat(j, SourceAll(l), [Simple(ReturnLine)], st);
    RunsAll(j, data, l, st);
    var r := ExecAll(j, data, l, map[]);
    assert "" + r.out.text == r.out.text;
    RunOne(j, Simple(ReturnLine), State(r.locals, Some(r.out.text), Some(data)));
  }

  lemma HeaderRuns(j: Engine, arg: Option<Env>, l: seq<Statement>)
    ensures RunBlock(j, [Simple(DefaultDataLine), Simple(BufferLine)] + l, State(map[], None, arg))
         == RunBlock(j, l, State(map[], Some(""), Some(if arg.Some? then arg.value else EmptyObject(j))))
  {
    hide EmptyObject;
    var data := Some(if arg.Some? then arg.value else EmptyObject(j));
    var all := [Simple(DefaultDataLine)] + ([Simple(BufferLine)] + l);
    RunConcat(j, [Simple(DefaultDataLine)], [Simple(BufferLine)] + l, State(map[], None, arg));
    RunOne(j, Simple(DefaultDataLine), State(map[], None, arg));
    RunConcat(j, [Simple(BufferLine)], l, State(map[], None, data));
    RunOne(j, Simple(BufferLine), State(map[], None, data));
    assert [Simple(DefaultDataLine), Simple(BufferLine)] + l == all;
  }

  /** The function that the visitor prints, called with or without data, returns the text of
      the template; where rendering stops it throws. */
  lemma FunctionRenders(j: Engine, w: World, t: AST, arg: Option<Env>)
    requires IncludeFree(t)
    requires Throughout(w, Agreement(j, w.host), t, if arg.Some? then arg.value else EmptyObject(j))
    ensures var o := Render(w, 0, t, if arg.Some? then arg.value else EmptyObject(j));
            var r := RunFunction(j, FunctionTo([], Lower(t, map[], 0).stmts, 0), arg);
            && r.Some?
            && (if o.ok then r.value == Return(Some(o.text))
                else r.value.Throw? && r.value.state.buffer == Some(o.text))
  {
    JavascriptRenders(j, w, if arg.Some? then arg.value else EmptyObject(j), t);
    FunctionRuns(j, Lower(t, map[], 0).stmts, arg);
    hide Throughout, Render, Lower, RunFunction, FunctionTo, ExecAll, EmptyObject;
  }

  // ---------- Running a template ----------

  /** The printed function of the template, called with data: the text it returns, or what was
      in `buffer` when it threw. */
  function RunJavascript(j: Engine, t: AST, data: Env): Outcome
    requires IncludeFree(t)
  {
    match RunFunction(j, FunctionTo([], Lower(t, map[], 0).stmts, 0), Some(data))
    case Some(Return(Some(text))) => Outcome(text, true)
    case Some(Throw(st)) => Outcome(if st.buffer.Some? then st.buffer.value else "", false)
    case _ => FAILED
  }

  /** The printed lines do what the tree does. */
  lemma RunsTheTree(j: Engine, t: AST, data: Env)
    requires IncludeFree(t)
    ensures RunJavascript(j, t, data) == ExecAll(j, data, Lower(t, map[], 0).stmts, map[]).out
  {
    hide Lower, RunFunction, FunctionTo, ExecAll;
    FunctionRuns(j, Lower(t, map[], 0).stmts, Some(data));
  }
}
