/** Rendering a template file: the class that writes the tree, and what it writes for any token list. */
module Template {
  import opened Wrappers
  import opened ParserModel
  import opened Rendering
  import opened RenderingExact
  import P = Parser
  import PS = ParserSoundness

  /** Writing child `i` of a node whose children from `i` on are still to be written. */
  lemma NextChild(vars: Vars, node: Ast, i: nat, context: Context, before: string, whole: string, output: string)
    requires i < |node.childs| && forall j :: 0 <= j < |node.childs| ==> Renderable(node.childs[j])
    requires before + whole == output + RenderChilds(vars, node, i, context).0
    ensures var r := RenderNode(vars, node.childs[i], context);
      before + whole == output + r.0 + RenderChilds(vars, node, i + 1, r.1).0
      && RenderChilds(vars, node, i, context).1 == RenderChilds(vars, node, i + 1, r.1).1
  {
  }

  lemma NoChildLeft(vars: Vars, node: Ast, context: Context)
    ensures RenderChilds(vars, node, |node.childs|, context) == ("", context)
  {
  }

  class Template {
    const vars: Vars
    var output: string
    var context: Context

    constructor (vars: Vars)
      ensures this.vars == vars && output == "" && context == map[]
    {
      this.vars := vars;
      output, context := "", map[];
    }

    /** Writes the children of a root or template node. */
    method WriteChilds(node: Ast)
      requires forall j :: 0 <= j < |node.childs| ==> Renderable(node.childs[j])
      modifies this
      ensures var r := RenderChilds(vars, node, 0, old(context)); output == old(output) + r.0 && context == r.1
      decreases node, 0
    {
      hide RenderNode;
      hide RenderChilds;
      ghost var whole := RenderChilds(vars, node, 0, context).0;
      for i := 0 to |node.childs|
        invariant var r, now := RenderChilds(vars, node, 0, old(context)), RenderChilds(vars, node, i, context);
          old(output) + r.0 == output + now.0 && r.1 == now.1
      {
        NextChild(vars, node, i, context, old(output), whole, output);
        Write(node.childs[i]);
      }
      NoChildLeft(vars, node, context);
    }

    method Write(node: Ast)
      requires Renderable(node)
      modifies this
      ensures var r := RenderNode(vars, node, old(context)); output == old(output) + r.0 && context == r.1
      decreases node, 1
    {
      match node.typ
      case TemplateNode =>
        WriteChilds(node);
      case TextNode =>
        output := output + node.value;
      case SubstNode =>
        var varName := Child(node, VarNode).value;
        output := output + vars.get("root." + Translate(varName, context));
      case ForNode =>
        var placeholder := Child(node, VarNode).value;
        var translated := Translate(Child(node, LoopExprNode).value, context);
        var subTemplate := Child(node, TemplateNode);
        var len := vars.size("root." + translated);
        for idx := 0 to len
          invariant var r := RenderLoop(vars, subTemplate, translated, placeholder, 0, len, old(context));
            var now := RenderLoop(vars, subTemplate, translated, placeholder, idx, len, context);
            old(output) + r.0 == output + now.0 && r.1 == now.1
        {
          context := context[placeholder := translated + "." + Decimal(idx)];
          Write(subTemplate);
        }
      case _ =>
    }

    /** From tokens to text: parse, then render whatever is under the root. A rejected token list is rendered as far
        as the root was filled, which is a beginning that derives from the grammar. */
    method RenderTokens(toks: seq<Token>) returns (text: string)
      requires Scanned(toks)
      modifies this
      ensures forall ts :: PS.Derives(toks, ts) ==>
        text == Rendered(vars, ts) && (AllFine(ts, {}) ==> text == ExpandAll(vars, ts, map[]))
      ensures exists n: nat, ts ::
        n <= |toks| && PS.Derives(toks[..n], ts) && text == Rendered(vars, ts)
        && (AllFine(ts, {}) ==> text == ExpandAll(vars, ts, map[]))
    {
      output, context := "", map[];
      var p := new P.Parser(toks);
      var accepted := p.Parse();
      ghost var n: nat, us: seq<Tmpl> :| PS.HoldsPrefix(toks, p.rootChilds, n, us);
      AllRenderable(us);
      WriteChilds(Ast(TemplateNode, "", p.rootChilds));
      text := output;
      assert text == Rendered(vars, us);
      RenderingIsExpansion(us);
      forall ts | PS.Derives(toks, ts)
        ensures text == Rendered(vars, ts) && (AllFine(ts, {}) ==> text == ExpandAll(vars, ts, map[]))
      {
        RenderingIsExpansion(ts);
      }
    }
  }
}
