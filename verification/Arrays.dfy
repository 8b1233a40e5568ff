/** What arrays and objects contribute to a page: the attribute that is asked for, and all
    elements in order, whether the template is interpreted, compiled or run as JavaScript. */
module Arrays {
  import opened Results
  import opened Ast
  import opened Semantics
  import opened Engines
  import opened Javascript
  import opened JavascriptSource
  import opened LoweringStatements
  import opened LoweringTheorems
  import Ir
  import Lowering

  // ---------- Attributes ----------

  /** The text is that of an entry with the name as its key: of the first one, and where keys
      are distinct of the only one. */
  ghost predicate ShowsEntry(h: Host, v: Value, name: string, text: string)
    requires v.Table?
  {
    && (exists i :: 0 <= i < |v.entries| && v.entries[i].key == Str(name) && text == Show(h, v.entries[i].val))
    && (DistinctKeys(v.entries) ==>
          forall i :: 0 <= i < |v.entries| && v.entries[i].key == Str(name) ==> text == Show(h, v.entries[i].val))
  }

  lemma AttributeShowsEntry(h: Host, v: Value, name: string)
    requires HasAttribute(v, name)
    ensures ShowsEntry(h, v, name, Show(h, GetAttribute(v, name)))
  {
    var first := AttributeHasEntry(v, name);
    if DistinctKeys(v.entries) {
      forall i | 0 <= i < |v.entries| && v.entries[i].key == Str(name)
        ensures GetAttribute(v, name) == v.entries[i].val
      {
        AttributeOfEntry(v, name, i);
      }
    }
  }

  /** The compiled `{{ b.name }}` prints the entry. */
  lemma CompiledAttribute(m: Ir.Machine, b: Expr, name: string, v: Value) returns (s: Ir.State)
    requires var t := Print(Attr(b, name));
             RunnableStmt(m.h, t) && Lowering.LowerTemplate(t).Ok? && m.blocks == Lowering.LowerTemplate(t).value.blocks
    requires Eval(m.h, b, DataEnv(m.data)) == Some(v) && HasAttribute(v, name)
    ensures Ir.Reaches(m, Ir.At(0, 0, INITIAL), Ir.Done(s)) && ShowsEntry(m.h, v, name, s.out)
  {
    var t := Print(Attr(b, name));
    assert Eval(m.h, Attr(b, name), DataEnv(m.data)) == Some(GetAttribute(v, name));
    AttributeShowsEntry(m.h, v, name);
    hide RunnableStmt, Lowering.LowerTemplate, Ir.Reaches, DataEnv, Eval, GetAttribute, ShowsEntry, HasAttribute;
    s := TemplateRuns(m, World(m.h, map[], ""), 0, t);
  }

  /** ... and so does its JavaScript, with the engine's spelling. */
  lemma JavascriptAttribute(j: Engine, h: Host, b: Expr, name: string, v: Value, data: Env)
    requires ValueAgrees(j, h, b, data) && Eval(h, b, data) == Some(v) && HasAttribute(v, name)
    ensures var r := RunJavascript(j, Print(Attr(b, name)), data);
            r.ok && ShowsEntry(j.lib, v, name, r.text)
  {
    var e := Attr(b, name);
    LoweredExprValue(j, h, data, b, map[], map[], data);
    assert JEval(j, data, LowerExpr(e, map[]), map[]) == Some(GetAttribute(v, name));
    ExecOne(j, data, Append(LowerExpr(e, map[])), map[]);
    RunsTheTree(j, Print(e), data);
    AttributeShowsEntry(j.lib, v, name);
  }

  // ---------- Elements ----------

  /** All keys and values, one after the other. */
  function Listing(h: Host, entries: seq<Entry>): string {
    if entries == [] then ""
    else Show(h, entries[0].key) + Show(h, entries[0].val) + Listing(h, entries[1..])
  }

  /** `{% for k, v in it %}{{ k }}{{ v }}{% endfor %}`. */
  function ListElements(k: string, v: string, it: Expr): AST {
    For(Some(k), Some(v), it, Statements([Print(Var(k)), Print(Var(v))]), None)
  }

  /** Rendering an array lists its elements, the first to the last. */
  lemma ElementsRender(w: World, d: nat, k: string, v: string, it: Expr, entries: seq<Entry>, env: Env)
    requires k != v && Eval(w.host, it, env) == Some(Table(entries))
    ensures Render(w, d, ListElements(k, v, it), env) == Outcome(Listing(w.host, entries), true)
  {
    RoundsRender(w, d, k, v, entries, env);
  }

  lemma {:induction false} RoundsRender(w: World, d: nat, k: string, v: string, entries: seq<Entry>, env: Env)
    requires k != v
    ensures RenderLoop(w, d, Some(k), Some(v), entries, Statements([Print(Var(k)), Print(Var(v))]), env)
         == Outcome(Listing(w.host, entries), true)
    decreases entries
  {
    if entries != [] {
      RoundsRender(w, d, k, v, entries[1..], env);
      var inner, body := Bind(env, Some(k), Some(v), entries[0]), [Print(Var(k)), Print(Var(v))];
      assert body[1..] == [Print(Var(v))] && body[1..][1..] == [];
      assert Eval(w.host, Var(k), inner) == Some(entries[0].key);
      assert Eval(w.host, Var(v), inner) == Some(entries[0].val);
      var last := Outcome(Show(w.host, entries[0].val), true);
      assert RenderAll(w, d, [], inner) == NOTHING && last.text + "" == last.text;
      assert RenderAll(w, d, body[1..], inner) == last;
      assert RenderAll(w, d, body, inner)
          == Outcome(Show(w.host, entries[0].key) + Show(w.host, entries[0].val), true);
    }
  }

  lemma CompiledElements(m: Ir.Machine, k: string, v: string, it: Expr, entries: seq<Entry>) returns (s: Ir.State)
    requires k != v && Eval(m.h, it, DataEnv(m.data)) == Some(Table(entries))
    requires var t := ListElements(k, v, it);
             RunnableStmt(m.h, t) && Lowering.LowerTemplate(t).Ok? && m.blocks == Lowering.LowerTemplate(t).value.blocks
    ensures Ir.Reaches(m, Ir.At(0, 0, INITIAL), Ir.Done(s)) && s.out == Listing(m.h, entries)
  {
    hide *;
    var w := World(m.h, map[], "");
    assert w.host == m.h;
    ElementsRender(w, 0, k, v, it, entries, DataEnv(m.data));
    s := TemplateRuns(m, w, 0, ListElements(k, v, it));
  }

  lemma JavascriptElements(j: Engine, w: World, k: string, v: string, it: Expr, entries: seq<Entry>, data: Env)
    requires k != v && Eval(w.host, it, data) == Some(Table(entries))
    requires Throughout(w, Agreement(j, w.host), ListElements(k, v, it), data)
    ensures IncludeFree(ListElements(k, v, it))
    ensures RunJavascript(j, ListElements(k, v, it), data) == Outcome(Listing(w.host, entries), true)
  {
    ListIsFree(k, v, it);
    hide *;
    ElementsRender(w, 0, k, v, it, entries, data);
    JavascriptRenders(j, w, data, ListElements(k, v, it));
    RunsTheTree(j, ListElements(k, v, it), data);
  }

  lemma ListIsFree(k: string, v: string, it: Expr)
    ensures IncludeFree(ListElements(k, v, it))
  {
    var body := [Print(Var(k)), Print(Var(v))];
    assert body[1..] == [Print(Var(v))] && body[1..][1..] == [] && IncludeFreeAll([]);
    assert IncludeFreeAll(body[1..]) && IncludeFreeAll(body) && IncludeFreeOpt(None);
  }
}
