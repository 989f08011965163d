/** What rendering a parsed template writes, with a context that only ever grows, and what a template means: lexically
    scoped expansion. */
module Rendering {
  import opened Wrappers
  import opened ParserModel

  /** The variables a template is rendered with: the text and the list length at every path. */
  datatype Vars = Vars(get: string -> string, size: string -> nat)

  type Context = map<string, string>

  /** Where the first dot is, or the length of the name. */
  function FirstDot(name: string): (i: nat)
    ensures i <= |name|
    ensures i < |name| ==> name[i] == '.'
    ensures '.' !in name[..i]
  {
    if name == [] || name[0] == '.' then 0 else 1 + FirstDot(name[1..])
  }

  /** The part of a name that is looked up: what stands before the first dot. */
  function Key(name: string): string {
    name[..FirstDot(name)]
  }

  /** translateVar: the first item is replaced by what the context knows it as; the rest is kept. */
  function Translate(name: string, context: Context): string {
    var idx := FirstDot(name);
    if idx < |name| then
      var firstItem := name[..idx];
      if firstItem in context then context[firstItem] + "." + name[idx + 1..] else name
    else if name in context then context[name]
    else name
  }

  /** The node has the children its type needs; every tree the parser builds does. */
  predicate Renderable(node: Ast)
    decreases node
  {
    match node.typ
    case TextNode => true
    case SubstNode => HasChild(node, VarNode)
    case ForNode => HasChild(node, VarNode) && HasChild(node, LoopExprNode) && HasChild(node, TemplateNode)
                    && Renderable(Child(node, TemplateNode))
    case TemplateNode => forall i :: 0 <= i < |node.childs| ==> Renderable(node.childs[i])
    case _ => true
  }

  predicate HasChild(node: Ast, typ: NodeType) {
    exists i :: 0 <= i < |node.childs| && node.childs[i].typ == typ
  }

  /** The position of the first child of that type. */
  function ChildIndex(childs: seq<Ast>, typ: NodeType): (i: nat)
    requires exists i :: 0 <= i < |childs| && childs[i].typ == typ
    ensures i < |childs| && childs[i].typ == typ
    ensures forall j :: 0 <= j < i ==> childs[j].typ != typ
  {
    if childs[0].typ == typ then 0
    else
      var k :| 0 <= k < |childs| && childs[k].typ == typ;
      assert childs[1..][k - 1].typ == typ;
      1 + ChildIndex(childs[1..], typ)
  }

  function Child(node: Ast, typ: NodeType): (c: Ast)
    requires HasChild(node, typ)
    ensures c.typ == typ && c < node
  {
    node.childs[ChildIndex(node.childs, typ)]
  }

  /** What render() writes for a node, and the context it leaves behind. */
  function RenderNode(vars: Vars, node: Ast, context: Context): (string, Context)
    requires Renderable(node)
    decreases node, 1, 0
  {
    match node.typ
    case TextNode => (node.value, context)
    case SubstNode => (vars.get("root." + Translate(Child(node, VarNode).value, context)), context)
    case TemplateNode => RenderChilds(vars, node, 0, context)
    case ForNode =>
      var path := Translate(Child(node, LoopExprNode).value, context);
      RenderLoop(vars, Child(node, TemplateNode), path, Child(node, VarNode).value, 0, vars.size("root." + path),
                 context)
    case _ => ("", context)
  }

  /** The children from the `i`-th on, one after the other. */
  function RenderChilds(vars: Vars, node: Ast, i: nat, context: Context): (string, Context)
    requires i <= |node.childs| && forall j :: i <= j < |node.childs| ==> Renderable(node.childs[j])
    decreases node, 0, |node.childs| - i
  {
    if i == |node.childs| then ("", context)
    else
      var (s, c) := RenderNode(vars, node.childs[i], context);
      var (s', c') := RenderChilds(vars, node, i + 1, c);
      (s + s', c')
  }

  /** The passes of a loop from `idx` on; the placeholder stays bound afterwards. */
  function RenderLoop(vars: Vars, sub: Ast, path: string, placeholder: string, idx: nat, len: nat, context: Context):
    (string, Context)
    requires Renderable(sub) && idx <= len
    decreases sub, 2, len - idx
  {
    if idx == len then ("", context)
    else
      var (s, c) := RenderNode(vars, sub, context[placeholder := path + "." + Decimal(idx)]);
      var (s', c') := RenderLoop(vars, sub, path, placeholder, idx + 1, len, c);
      (s + s', c')
  }

  // ---- the meaning of a template

  /** Lexically scoped expansion: a loop's placeholder is visible in its body and nowhere else. */
  function Expand(vars: Vars, t: Tmpl, env: Context): string
    decreases t, 1, 0
  {
    match t
    case Plain(text) => text
    case Subst(name) => vars.get("root." + Translate(name, env))
    case For(item, expr, body) =>
      var path := Translate(expr, env);
      ExpandLoop(vars, body, path, item, 0, vars.size("root." + path), env)
  }

  function ExpandAll(vars: Vars, ts: seq<Tmpl>, env: Context): string
    decreases ts, 0, 0
  {
    if ts == [] then "" else Expand(vars, ts[0], env) + ExpandAll(vars, ts[1..], env)
  }

  function ExpandLoop(vars: Vars, body: seq<Tmpl>, path: string, item: string, idx: nat, len: nat, env: Context): string
    requires idx <= len
    decreases body, 1, len - idx
  {
    if idx == len then ""
    else
      var now := ExpandAll(vars, body, env[item := path + "." + Decimal(idx)]);
      now + ExpandLoop(vars, body, path, item, idx + 1, len, env)
  }

  lemma {:induction false} AstRenderable(t: Tmpl)
    requires WellFormed(t)
    ensures Renderable(AstOf(t))
    decreases t, 1
  {
    var node := AstOf(t);
    match t {
      case Plain(_) =>
      case Subst(_) => assert node.childs[0].typ == VarNode;
      case For(_, _, body) =>
        assert node.childs[0].typ == LoopExprNode && node.childs[1].typ == VarNode;
        assert node.childs[2].typ == TemplateNode;
        AllRenderable(body);
        assert Child(node, TemplateNode) == node.childs[2];
    }
  }

  lemma {:induction false} AllRenderable(ts: seq<Tmpl>)
    requires AllWellFormed(ts)
    ensures forall i :: 0 <= i < |ts| ==> Renderable(AstAll(ts)[i])
    decreases ts, 0
  {
    if ts != [] {
      AstRenderable(ts[0]);
      AllRenderable(ts[1..]);
    }
  }

  // ---- rendering in terms of templates instead of trees

  /** What rendering the tree of a template writes, and the context it leaves behind. */
  function Flow(vars: Vars, t: Tmpl, context: Context): (string, Context)
    decreases t, 1, 0
  {
    match t
    case Plain(text) => (text, context)
    case Subst(name) => (vars.get("root." + Translate(name, context)), context)
    case For(item, expr, body) =>
      var path := Translate(expr, context);
      FlowLoop(vars, body, path, item, 0, vars.size("root." + path), context)
  }

  function FlowAll(vars: Vars, ts: seq<Tmpl>, context: Context): (string, Context)
    decreases ts, 0, 0
  {
    if ts == [] then ("", context)
    else
      var (s, c) := Flow(vars, ts[0], context);
      var (s', c') := FlowAll(vars, ts[1..], c);
      (s + s', c')
  }

  function FlowLoop(vars: Vars, body: seq<Tmpl>, path: string, item: string, idx: nat, len: nat, context: Context):
    (string, Context)
    requires idx <= len
    decreases body, 1, len - idx
  {
    if idx == len then ("", context)
    else
      var (s, c) := FlowAll(vars, body, context[item := path + "." + Decimal(idx)]);
      var (s', c') := FlowLoop(vars, body, path, item, idx + 1, len, c);
      (s + s', c')
  }

  lemma {:induction false} AstAllAt(ts: seq<Tmpl>, i: nat)
    requires i < |ts|
    ensures AstAll(ts)[i] == AstOf(ts[i])
  {
    if i > 0 { AstAllAt(ts[1..], i - 1); }
  }

  lemma {:induction false} RenderIsFlow(vars: Vars, t: Tmpl, context: Context)
    requires WellFormed(t)
    ensures Renderable(AstOf(t)) && RenderNode(vars, AstOf(t), context) == Flow(vars, t, context)
    decreases t, 1, 0
  {
    AstRenderable(t);
    var node := AstOf(t);
    match t {
      case Plain(_) =>
      case Subst(_) =>
        assert node.childs[0].typ == VarNode;
        assert Child(node, VarNode) == node.childs[0];
      case For(item, expr, body) =>
        assert node.childs[0].typ == LoopExprNode && node.childs[1].typ == VarNode;
        assert node.childs[2].typ == TemplateNode;
        assert Child(node, LoopExprNode) == node.childs[0] && Child(node, VarNode) == node.childs[1];
        assert Child(node, TemplateNode) == node.childs[2];
        var path := Translate(expr, context);
        AllRenderable(body);
        LoopIsFlow(vars, body, path, item, 0, vars.size("root." + path), context);
    }
  }

  /** The children of a node from the `i`-th on, which are the trees of `ts[i..]`. */
  lemma {:induction false} ChildsAreFlow(vars: Vars, node: Ast, ts: seq<Tmpl>, i: nat, context: Context)
    requires node.childs == AstAll(ts) && AllWellFormed(ts) && i <= |ts|
    requires forall j :: 0 <= j < |node.childs| ==> Renderable(node.childs[j])
    ensures RenderChilds(vars, node, i, context) == FlowAll(vars, ts[i..], context)
    decreases ts, 0, |ts| - i
  {
    if i < |ts| {
      AstAllAt(ts, i);
      assert ts[i..][1..] == ts[i + 1..];
      RenderIsFlow(vars, ts[i], context);
      ChildsAreFlow(vars, node, ts, i + 1, RenderNode(vars, node.childs[i], context).1);
    }
  }

  lemma {:induction false} LoopIsFlow(vars: Vars, body: seq<Tmpl>, path: string, item: string, idx: nat, len: nat,
                                      context: Context)
    requires idx <= len && AllWellFormed(body) && Renderable(Ast(TemplateNode, "", AstAll(body)))
    ensures RenderLoop(vars, Ast(TemplateNode, "", AstAll(body)), path, item, idx, len, context)
         == FlowLoop(vars, body, path, item, idx, len, context)
    decreases body, 1, len - idx
  {
    if idx < len {
      var node := Ast(TemplateNode, "", AstAll(body));
      var bound := context[item := path + "." + Decimal(idx)];
      assert body[0..] == body;
      ChildsAreFlow(vars, node, body, 0, bound);
      LoopIsFlow(vars, body, path, item, idx + 1, len, RenderNode(vars, node, bound).1);
    }
  }

  /** What rendering a file writes: the root is handled like a template node. */
  function Rendered(vars: Vars, ts: seq<Tmpl>): string
    requires AllWellFormed(ts)
  {
    AllRenderable(ts);
    RenderChilds(vars, Ast(TemplateNode, "", AstAll(ts)), 0, map[]).0
  }

  lemma RenderedIsFlow(vars: Vars, ts: seq<Tmpl>)
    requires AllWellFormed(ts)
    ensures Rendered(vars, ts) == FlowAll(vars, ts, map[]).0
  {
    AllRenderable(ts);
    assert ts[0..] == ts;
    ChildsAreFlow(vars, Ast(TemplateNode, "", AstAll(ts)), ts, 0, map[]);
  }
}
