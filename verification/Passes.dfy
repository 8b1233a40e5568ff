/** The statement walker with its in-place splice loop, the passes that plug into it, and the
    pass manager.  Each method is proved against the function of the same computation; what
    the passes achieve is proved about those functions in PassProperties.dfy. */
module Passes {
  import opened Results
  import opened Ast
  import opened Semantics
  import opened Folding
  import opened ExpressionPasses

  type Walked = Result<AST, PassError>

  datatype Pass =
    | OnExpressions(pass: ExprPass)
    | ConvertLiteralPrints(fpu: FPU)
    | CoalesceRawBlocks
    | ResolveIncludes(files: map<string, AST>, basePath: string, depth: nat)

  /** Including a file restarts the walk, with less depth left. */
  function Rank(p: Pass): nat {
    if p.ResolveIncludes? then 1 + p.depth else 0
  }

  // ---------- Literal prints ----------

  function Digits(n: nat): string {
    if n < 10 then [DigitChar(n)] else Digits(n / 10) + [DigitChar(n % 10)]
  }

  function DigitChar(n: nat): char
    requires n < 10
  {
    '0' + n as char
  }

  /** `createFormattedRawBlock`: what a string stream prints for the literal. */
  function FormatLiteral(fpu: FPU, e: Expr): string
    requires IsLiteral(e)
  {
    match e
    case DoubleLit(d) => fpu.spell(d)
    case IntLit(i) => if i < 0 then "-" + Digits(-i) else Digits(i)
    case BoolLit(b) => if b then "true" else "false"
    case StrLit(s) => s
  }

  function ConvertPrint(fpu: FPU, e: Expr): AST {
    if IsLiteral(e) then Raw(FormatLiteral(fpu, e)) else Print(e)
  }

  // ---------- Raw blocks ----------

  /** Each maximal run of raw blocks becomes one. */
  function Coalesced(l: seq<AST>): (r: seq<AST>)
    ensures NodesAll(r) <= NodesAll(l)
  {
    if l == [] then []
    else
      var t := Coalesced(l[1..]);
      assert l == [l[0]] + l[1..];
      if l[0].Raw? && t != [] && t[0].Raw? then
        assert ([Raw(l[0].text + t[0].text)] + t[1..])[1..] == t[1..];
        [Raw(l[0].text + t[0].text)] + t[1..]
      else
        assert ([l[0]] + t)[1..] == t;
        [l[0]] + t
  }

  function Joined(strings: seq<string>): string {
    if strings == [] then "" else strings[0] + Joined(strings[1..])
  }

  lemma {:induction false} JoinedAppend(a: seq<string>, s: string)
    ensures Joined(a + [s]) == Joined(a) + s
  {
    if a == [] {
      assert a + [s] == [s];
      assert Joined([s]) == s + Joined([s][1..]);
    } else {
      assert (a + [s])[1..] == a[1..] + [s];
      JoinedAppend(a[1..], s);
    }
  }

  /** `concat`: one buffer of the total length plus the terminator. */
  method Concat(strings: seq<string>) returns (buffer: array<char>)
    ensures fresh(buffer)
    ensures buffer[..] == Joined(strings) + ['\0']
  {
    var length := 0;
    for i := 0 to |strings|
      invariant length == |Joined(strings[..i])|
    {
      JoinedAppend(strings[..i], strings[i]);
      assert strings[..i + 1] == strings[..i] + [strings[i]];
      length := length + |strings[i]|;
    }
    assert strings[..|strings|] == strings;
    buffer := new char[length + 1];
    var ptr := 0;
    for i := 0 to |strings|
      invariant ptr == |Joined(strings[..i])| <= length
      invariant buffer[..ptr] == Joined(strings[..i])
    {
      JoinedAppend(strings[..i], strings[i]);
      assert strings[..i + 1] == strings[..i] + [strings[i]];
      JoinedPrefix(strings, i + 1);
      var str := strings[i];
      forall j | 0 <= j < |str| {
        buffer[ptr + j] := str[j];
      }
      ptr := ptr + |str|;
      assert buffer[..ptr] == Joined(strings[..i]) + str;
    }
    assert strings[..|strings|] == strings;
    buffer[ptr] := '\0';
    assert buffer[..ptr] == Joined(strings);
  }

  lemma {:induction false} JoinedPrefix(strings: seq<string>, i: nat)
    requires i <= |strings|
    ensures |Joined(strings[..i])| <= |Joined(strings)|
    decreases |strings| - i
  {
    if i < |strings| {
      JoinedAppend(strings[..i], strings[i]);
      assert strings[..i + 1] == strings[..i] + [strings[i]];
      JoinedPrefix(strings, i + 1);
    } else {
      assert strings[..i] == strings;
    }
  }

  predicate AllRaw(l: seq<AST>) {
    forall t :: t in l ==> t.Raw?
  }

  function Texts(l: seq<AST>): seq<string>
    requires AllRaw(l)
  {
    seq(|l|, i requires 0 <= i < |l| => l[i].text)
  }

  /** A run of raw blocks followed by something else coalesces into one block. */
  lemma {:induction false} RunCoalesces(run: seq<AST>, rest: seq<AST>)
    requires run != [] && AllRaw(run) && (rest == [] || !rest[0].Raw?)
    ensures Coalesced(run + rest) == [Raw(Joined(Texts(run)))] + Coalesced(rest)
  {
    assert (run + rest)[1..] == run[1..] + rest;
    assert Texts(run)[1..] == Texts(run[1..]);
    assert Coalesced(rest) == [] || !Coalesced(rest)[0].Raw?;
    if |run| == 1 {
      assert run[1..] + rest == rest;
      assert Joined(Texts(run)[1..]) == "";
      assert Joined(Texts(run)) == run[0].text;
      assert run[0] == Raw(Joined(Texts(run)));
    } else {
      RunCoalesces(run[1..], rest);
    }
  }

  /** Length of the run of raw blocks a list starts with. */
  function RunLength(l: seq<AST>): (n: nat)
    ensures n <= |l| && AllRaw(l[..n]) && (n < |l| ==> !l[n].Raw?)
    ensures forall i :: 0 <= i < n ==> l[i].Raw?
  {
    if l == [] || !l[0].Raw? then 0
    else
      var n := 1 + RunLength(l[1..]);
      assert l[..n] == [l[0]] + l[1..][..n - 1];
      n
  }

  /** The texts of the raw blocks from `iter` to the next statement of another kind. */
  method GatherTexts(stmts: seq<AST>, iter: nat) returns (strings: seq<string>)
    requires iter <= |stmts|
    ensures strings == Texts(stmts[iter..][..RunLength(stmts[iter..])])
  {
    strings := [];
    var iter2 := iter;
    ghost var run := RunLength(stmts[iter..]);
    while iter2 < |stmts| && stmts[iter2].Raw?
      invariant iter <= iter2 <= iter + run
      invariant strings == Texts(stmts[iter..][..run])[..iter2 - iter]
    {
      assert stmts[iter2] == stmts[iter..][iter2 - iter];
      strings := strings + [stmts[iter2].text];
      iter2 := iter2 + 1;
    }
    assert iter2 < |stmts| ==> stmts[iter2] == stmts[iter..][iter2 - iter];
  }

  /** Erases the raw blocks from `at` to the next statement of another kind. */
  method EraseRun(list: seq<AST>, at: nat) returns (stmts: seq<AST>)
    requires at <= |list|
    ensures stmts == list[..at] + list[at..][RunLength(list[at..])..]
  {
    stmts := list;
    ghost var prefix, tail := list[..at], list[at..];
    ghost var run := RunLength(tail);
    ghost var erased := 0;
    assert list == prefix + tail[0..];
    while at < |stmts| && stmts[at].Raw?
      invariant erased <= run
      invariant stmts == prefix + tail[erased..]
      decreases |stmts|
    {
      EraseOne(prefix, tail, erased);
      stmts := stmts[..at] + stmts[at + 1..];
      erased := erased + 1;
    }
    if erased < |tail| {
      EraseOne(prefix, tail, erased);
    }
  }

  lemma EraseOne(prefix: seq<AST>, tail: seq<AST>, erased: nat)
    requires erased < |tail|
    ensures var l := prefix + tail[erased..];
            l[|prefix|] == tail[erased] && l[..|prefix|] + l[|prefix| + 1..] == prefix + tail[erased + 1..]
  {
  }

  lemma AppendAssociates(a: seq<AST>, b: seq<AST>, c: seq<AST>)
    ensures a + (b + c) == a + b + c
  {
  }

  /** Writes the text of the run of raw blocks that starts at `iter` into its first block
      and erases the others. */
  method MergeRun(list: seq<AST>, iter: nat) returns (stmts: seq<AST>)
    requires iter < |list| && list[iter].Raw?
    ensures iter < |stmts| <= |list| && stmts[..iter] == list[..iter]
    ensures [stmts[iter]] + Coalesced(stmts[iter + 1..]) == Coalesced(list[iter..])
  {
    stmts := list;
    ghost var suffix := list[iter..];
    ghost var n := RunLength(suffix);
    assert suffix == suffix[..n] + suffix[n..];
    RunCoalesces(suffix[..n], suffix[n..]);
    var strings := GatherTexts(stmts, iter);
    if |strings| > 1 {
      var buffer := Concat(strings);
      stmts := stmts[iter := Raw(buffer[..buffer.Length - 1])];
      assert stmts[iter + 1..] == suffix[1..];
      assert RunLength(suffix) == 1 + RunLength(suffix[1..]);
      stmts := EraseRun(stmts, iter + 1);
    } else {
      assert Joined(strings) == strings[0] + Joined(strings[1..]);
    }
    assert stmts[iter + 1..] == suffix[n..];
  }

  /** `CoalesceRawBlocksPass::process_node`. */
  method CoalesceStatements(list: seq<AST>) returns (stmts: seq<AST>)
    ensures stmts == Coalesced(list)
  {
    stmts := list;
    var iter := 0;
    while iter < |stmts|
      invariant 0 <= iter <= |stmts|
      invariant stmts[..iter] + Coalesced(stmts[iter..]) == Coalesced(list)
      decreases |stmts| - iter
    {
      ghost var before, suffix := stmts[..iter], stmts[iter..];
      if stmts[iter].Raw? {
        stmts := MergeRun(stmts, iter);
      } else {
        assert suffix[1..] == stmts[iter + 1..];
      }
      assert stmts[..iter + 1] == before + [stmts[iter]];
      AppendAssociates(before, [stmts[iter]], Coalesced(stmts[iter + 1..]));
      iter := iter + 1;
    }
    assert stmts[..iter] == stmts;
  }

  // ---------- What a pass does at a node ----------

  function OnExpr(p: Pass, e: Expr): Folded {
    if p.OnExpressions? then Visit(p.pass, e) else Ok(e)
  }

  function OnPrint(p: Pass, e: Expr): Walked {
    if p.ConvertLiteralPrints? then Ok(ConvertPrint(p.fpu, e))
    else
      var e' :- OnExpr(p, e);
      Ok(Print(e'))
  }

  function OnList(p: Pass, l: seq<AST>): (r: seq<AST>)
    ensures NodesAll(r) <= NodesAll(l)
  {
    if p.CoalesceRawBlocks? then Coalesced(l) else l
  }

  function OnOptional(p: Pass, o: Option<Expr>): Result<Option<Expr>, PassError> {
    match o
    case None => Ok(None)
    case Some(e) => var e' :- OnExpr(p, e); Ok(Some(e'))
  }

  function OnBindings(p: Pass, m: seq<Binding>): Result<seq<Binding>, PassError> {
    if m == [] then Ok([])
    else
      var e' :- OnExpr(p, m[0].expr);
      var m' :- OnBindings(p, m[1..]);
      Ok([Binding(m[0].name, e')] + m')
  }

  /** The pass that gives the variables of an included template their meaning. */
  function Substitution(path: string, scope: Option<Expr>, mapping: seq<Binding>): ExprPass {
    if scope.Some? then PrependScope(scope.value) else ReplaceVariables(path, mapping)
  }

  // ---------- The walker ----------

  /** A list inside a list is merged with it. */
  function Splice(t: AST): seq<AST> {
    if t.Statements? then t.list else [t]
  }

  /** A list with one statement is that statement. */
  function FromList(l: seq<AST>): AST {
    if |l| == 1 then l[0] else Statements(l)
  }

  function Walk(p: Pass, t: AST): Walked
    decreases Rank(p), 0, Nodes(t), 1
  {
    match t
    case Statements(l) => var l' :- WalkAll(p, OnList(p, l)); Ok(FromList(l'))
    case Raw(_) => Ok(t)
    case Print(e) => OnPrint(p, e)
    case If(c, a, b) =>
      var c' :- OnExpr(p, c);
      var a' :- Walk(p, a);
      var b' :- WalkOpt(p, b);
      Ok(If(c', a', b'))
    case For(k, v, it, a, b) =>
      var it' :- OnExpr(p, it);
      var a' :- Walk(p, a);
      var b' :- WalkOpt(p, b);
      Ok(For(k, v, it', a', b'))
    case Include(name, s, m) =>
      if p.OnExpressions? then
        var s' :- OnOptional(p, s);
        var m' :- OnBindings(p, m);
        Ok(Include(name, s', m'))
      else if p.ResolveIncludes? then
        var path := ResolvePath(p.basePath, name);
        if path !in p.files then Err(MissingFile(path))
        else if p.depth == 0 then Err(IncludesTooDeep)
        else
          var included :- Walk(p.(depth := p.depth - 1), p.files[path]);
          Walk(OnExpressions(Substitution(path, s, m)), included)
      else Ok(t)
  }

  function WalkOpt(p: Pass, o: Option<AST>): Result<Option<AST>, PassError>
    decreases Rank(p), 0, NodesOpt(o), 2
  {
    match o
    case None => Ok(None)
    case Some(t) => var t' :- Walk(p, t); Ok(Some(t'))
  }

  function WalkAll(p: Pass, l: seq<AST>): Result<seq<AST>, PassError>
    decreases Rank(p), 0, NodesAll(l), 2
  {
    if l == [] then Ok([])
    else
      var t' :- Walk(p, l[0]);
      var l' :- WalkAll(p, l[1..]);
      Ok(Splice(t') + l')
  }

  /** Running passes one after the other. */
  function RunAll(passes: seq<Pass>, t: AST): Walked {
    if passes == [] then Ok(t)
    else
      var t' :- Walk(passes[0], t);
      RunAll(passes[1..], t')
  }

  function RankAll(passes: seq<Pass>): nat {
    if passes == [] then 0 else Max(Rank(passes[0]), RankAll(passes[1..]))
  }

  lemma {:induction false} RankBounded(passes: seq<Pass>, i: nat)
    requires i < |passes|
    ensures Rank(passes[i]) <= RankAll(passes)
  {
    if i > 0 {
      RankBounded(passes[1..], i - 1);
    }
  }

  // ---------- The walker as it runs ----------

  method Process(p: Pass, t: AST) returns (r: Walked)
    ensures r == Walk(p, t)
    decreases Rank(p), 0, Nodes(t), 1
  {
    match t
    case Statements(l) => r := ProcessStatements(p, l);
    case Raw(_) => r := Ok(t);
    case Print(e) => r := OnPrint(p, e);
    case If(c, a, b) =>
      var c' :- OnExpr(p, c);
      var a' :- Process(p, a);
      var b' := None;
      if b.Some? {
        assert NodesOpt(b) == Nodes(b.value);
        var t' :- Process(p, b.value);
        b' := Some(t');
      }
      r := Ok(If(c', a', b'));
    case For(k, v, it, a, b) =>
      var it' :- OnExpr(p, it);
      var a' :- Process(p, a);
      var b' := None;
      if b.Some? {
        assert NodesOpt(b) == Nodes(b.value);
        var t' :- Process(p, b.value);
        b' := Some(t');
      }
      r := Ok(For(k, v, it', a', b'));
    case Include(name, s, m) =>
      if p.OnExpressions? {
        var s' :- OnOptional(p, s);
        var m' :- OnBindings(p, m);
        r := Ok(Include(name, s', m'));
      } else if p.ResolveIncludes? {
        r := ProcessInclude(p, name, s, m);
      } else {
        r := Ok(t);
      }
  }

  /** `ResolveIncludesPass::process_node`: resolve the included file on its own, then run
      the substitution over the result with the pass's private manager. */
  method ProcessInclude(p: Pass, name: string, s: Option<Expr>, m: seq<Binding>) returns (r: Walked)
    requires p.ResolveIncludes?
    ensures r == Walk(p, Include(name, s, m))
    decreases Rank(p), 0, 0, 0
  {
    var path := ResolvePath(p.basePath, name);
    if path !in p.files {
      return Err(MissingFile(path));
    }
    if p.depth == 0 {
      return Err(IncludesTooDeep);
    }
    var included :- Process(p.(depth := p.depth - 1), p.files[path]);
    var manager := new PassManager();
    manager.AddPass(OnExpressions(Substitution(path, s, m)));
    assert manager.passes[1..] == [] && RankAll(manager.passes) == 0;
    assert RunAll([], included) == Ok(included);
    r := manager.Run(included);
  }

  /** Stores what the walk returned for a child.  The statements of a list are inserted
      before that list, which is then erased; the iterator ends up on the last statement
      inserted or, for an empty list, before its place. */
  method StoreChild(list: seq<AST>, at: nat, child: AST) returns (stmts: seq<AST>, it: int)
    requires at < |list|
    ensures stmts == list[..at] + Splice(child) + list[at + 1..]
    ensures it == at + |Splice(child)| - 1
  {
    stmts, it := list[at := child], at;
    if child.Statements? {
      for j := 0 to |child.list|
        invariant it == at + j < |stmts|
        invariant stmts == list[..at] + child.list[..j] + [child] + list[at + 1..]
      {
        stmts := stmts[..it] + [child.list[j]] + stmts[it..];
        it := it + 1;
      }
      stmts := stmts[..it] + stmts[it + 1..];
      it := it - 1;
    }
  }

  /** The loop of `ASTPass::statements`: each child is replaced by what the walk returns,
      and merged into the list when that is a list itself. */
  method ProcessStatements(p: Pass, list: seq<AST>) returns (r: Walked)
    ensures r == Walk(p, Statements(list))
    decreases Rank(p), 0, 1 + NodesAll(list), 0
  {
    var stmts := list;
    if p.CoalesceRawBlocks? {
      stmts := CoalesceStatements(list);
    }
    ghost var all := stmts;
    ghost var k := 0;
    var it := 0;
    assert all[k..] == all;
    PrefixedEmpty(WalkAll(p, all));
    while it < |stmts|
      invariant 0 <= it <= |stmts| && 0 <= k <= |all|
      invariant stmts[it..] == all[k..]
      invariant WalkAll(p, all) == Prefixed(stmts[..it], WalkAll(p, all[k..]))
      decreases |all| - k
    {
      assert stmts[it] == all[k] && all[k..][1..] == all[k + 1..] == stmts[it + 1..];
      NodesOfElement(all, k);
      ghost var done := stmts[..it];
      var child :- Process(p, stmts[it]);
      stmts, it := StoreChild(stmts, it, child);
      it := it + 1;
      k := k + 1;
      assert stmts[..it] == done + Splice(child);
      PrefixedTwice(done, Splice(child), WalkAll(p, all[k..]));
    }
    assert stmts[..it] == stmts && all[k..] == [];
    assert stmts + [] == stmts;
    if |stmts| == 1 {
      return Ok(stmts[0]);
    }
    return Ok(Statements(stmts));
  }

  ghost function Prefixed(done: seq<AST>, r: Result<seq<AST>, PassError>): Result<seq<AST>, PassError> {
    if r.Ok? then Ok(done + r.value) else r
  }

  lemma PrefixedEmpty(r: Result<seq<AST>, PassError>)
    ensures Prefixed([], r) == r
  {
    if r.Ok? {
      assert [] + r.value == r.value;
    }
  }

  lemma PrefixedTwice(a: seq<AST>, b: seq<AST>, r: Result<seq<AST>, PassError>)
    ensures Prefixed(a, Prefixed(b, r)) == Prefixed(a + b, r)
  {
    if r.Ok? {
      assert a + (b + r.value) == a + b + r.value;
    }
  }

  lemma {:induction false} NodesOfElement(l: seq<AST>, k: nat)
    requires k < |l|
    ensures Nodes(l[k]) <= NodesAll(l)
  {
    if k > 0 {
      NodesOfElement(l[1..], k - 1);
    }
  }

  // ---------- The pass manager ----------

  class PassManager {
    var passes: seq<Pass>

    constructor ()
      ensures passes == []
    {
      passes := [];
    }

    method AddPass(p: Pass)
      modifies this
      ensures passes == old(passes) + [p]
    {
      passes := passes + [p];
    }

    method RemoveAllPasses()
      modifies this
      ensures passes == []
    {
      passes := [];
    }

    /** Runs the passes in the order in which they were added and stops at the first error. */
    method Run(t: AST) returns (r: Walked)
      ensures r == RunAll(passes, t)
      decreases RankAll(passes), 1, 0, 0
    {
      var t' := t;
      assert passes[0..] == passes;
      for i := 0 to |passes|
        invariant RunAll(passes, t) == RunAll(passes[i..], t')
      {
        RankBounded(passes, i);
        t' :- Process(passes[i], t');
      }
      r := Ok(t');
    }
  }
}
