/** One turn of the parser's endless loop, on values. */
module ParserModel {
  import opened Wrappers
  import opened LrTables

  datatype Token = Token(kind: int, text: string)

  /** The type strings the grammar's actions give to nodes. */
  datatype NodeType = TextNode | SubstNode | VarNode | TemplateNode | ForNode | LoopExprNode

  datatype Ast = Ast(typ: NodeType, value: string, childs: seq<Ast>)

  /** A semantic value: not set, a TEXT, a NODE, or the NODE that is the root itself. */
  datatype Val = Null | Text(text: string) | Node(node: Ast) | Root

  /** The parser's fields. `pos` is how far the scanner has read; it is one past the tokens once it reported the end. */
  datatype Cfg = Cfg(states: seq<nat>, vals: seq<Val>, token: int, nextToken: int, val: Val, nextVal: Val, pos: nat,
                     root: seq<Ast>)

  /** Crash: the original would read a value that is not there, or as the wrong type. */
  datatype Outcome = Continue(cfg: Cfg) | Accept(cfg: Cfg) | Abort | Crash

  predicate Terminal(kind: int) {
    BLOCK_START <= kind <= RAW_TEXT
  }

  predicate Scanned(toks: seq<Token>) {
    forall i :: 0 <= i < |toks| ==> Terminal(toks[i].kind)
  }

  function Top(c: Cfg): nat
    requires c.states != []
  {
    c.states[|c.states| - 1]
  }

  /** The value `k` places below the top of the stack. */
  function Below(c: Cfg, k: nat): Val {
    if k < |c.vals| then c.vals[|c.vals| - 1 - k] else Null
  }

  function Push(c: Cfg, state: nat): Cfg {
    c.(states := c.states + [state], vals := c.vals + [c.val])
  }

  function PopToken(c: Cfg): Cfg {
    c.(token := c.nextToken, val := c.nextVal, nextVal := Null, nextToken := UNDETERMINED)
  }

  function PushToken(c: Cfg, token: int): Cfg {
    c.(nextToken := c.token, nextVal := c.val, token := token)
  }

  /** The text of the token the scanner read last. */
  function Matched(toks: seq<Token>, pos: nat): string {
    if 0 < pos <= |toks| then toks[pos - 1].text else ""
  }

  function NextToken(toks: seq<Token>, c: Cfg): Cfg {
    if c.token != UNDETERMINED then c
    else if c.nextToken != UNDETERMINED then PopToken(c)
    else if c.pos < |toks| then c.(token := toks[c.pos].kind, pos := c.pos + 1)
    else c.(token := EOF, pos := |toks| + 1)
  }

  /** The semantic actions; None is a crash. */
  function Effect(toks: seq<Token>, c: Cfg, rule: int): Option<Cfg> {
    match rule
    case 1 => Some(c.(val := Root))
    case 2 => if Below(c, 1).Node? then Some(c.(root := [Below(c, 1).node] + c.root)) else None
    case 3 => if Below(c, 0).Node? then Some(c.(val := Below(c, 0))) else None
    case 4 => if Below(c, 0).Text? then Some(c.(val := Node(Ast(TextNode, Below(c, 0).text, [])))) else None
    case 5 => if Below(c, 0).Node? then Some(c.(val := Node(Ast(SubstNode, "", [Below(c, 0).node])))) else None
    case 6 => if Below(c, 1).Text? then Some(c.(val := Node(Ast(VarNode, Below(c, 1).text, [])))) else None
    case 7 => if Below(c, 0).Node? then Some(c.(val := Node(Ast(TemplateNode, "", [Below(c, 0).node])))) else None
    case 8 =>
      if Below(c, 1).Node? && Below(c, 0).Node? then
        var list := Below(c, 1).node;
        Some(c.(val := Node(list.(childs := list.childs + [Below(c, 0).node]))))
      else None
    case 9 => if Below(c, 0).Node? then Some(c.(val := Below(c, 0))) else None
    case 10 =>
      if Below(c, 3).Node? && Below(c, 7).Text? && Below(c, 5).Text? then
        Some(c.(val := Node(Ast(ForNode, "",
          [Ast(LoopExprNode, Below(c, 5).text, []), Ast(VarNode, Below(c, 7).text, []), Below(c, 3).node]))))
      else None
    case 11 => Some(c.(val := Text(Matched(toks, c.pos))))
    case 12 => Some(c.(val := Text(Matched(toks, c.pos))))
    case _ => Some(c)
  }

  function ExecuteAction(toks: seq<Token>, c: Cfg, rule: int): Option<Cfg> {
    var c1 := if c.token != UNDETERMINED then PushToken(c, c.token) else c;
    var size := Production(rule).1;
    if size > |c1.vals| then None
    else
      var c2 := if size > 0 then c1.(val := Below(c1, size - 1)) else c1;
      Effect(toks, c2, rule)
  }

  /** The left-hand side becomes the current token; None when the stack is too short, which aborts. */
  function Reduce(c: Cfg, rule: int): Option<Cfg>
    requires |c.states| == |c.vals| && c.states != []
  {
    var (lhs, size) := Production(rule);
    if |c.states| - 1 < size then None
    else Some(c.(token := lhs, states := c.states[..|c.states| - size], vals := c.vals[..|c.vals| - size]))
  }

  /** Shifts, accepts, or executes the rule's action and reduces. */
  function Take(toks: seq<Token>, c: Cfg, action: int): (o: Outcome)
    requires |c.states| == |c.vals| && c.states != []
    ensures o.Continue? ==> |o.cfg.states| == |o.cfg.vals| && o.cfg.states != []
  {
    if action > 0 then Continue(PopToken(Push(c, action)))
    else if action == 0 then Accept(c)
    else
      match ExecuteAction(toks, c, -action)
      case None => Crash
      case Some(c2) =>
        match Reduce(c2, -action)
        case None => Abort
        case Some(c3) => Continue(c3)
  }

  /** The configuration in which the action is looked up: with a token, where the state needs one. */
  function Prepared(toks: seq<Token>, c: Cfg): (d: Cfg)
    requires c.states != []
    ensures d.states == c.states && d.vals == c.vals
  {
    if Requires(Top(c)) then NextToken(toks, c) else c
  }

  /** One turn of the loop. No state has an error item, so an unexpected token always ends in an abort. */
  function Step(toks: seq<Token>, c: Cfg): (o: Outcome)
    requires |c.states| == |c.vals| && c.states != []
    ensures o.Continue? ==> |o.cfg.states| == |o.cfg.vals| && o.cfg.states != []
  {
    var c1 := Prepared(toks, c);
    match Action(Top(c1), c1.token)
    case None => Abort
    case Some(action) => Take(toks, c1, action)
  }

  function Init(): Cfg {
    Cfg([0], [Null], UNDETERMINED, UNDETERMINED, Null, Null, 0, [])
  }

  /** The configuration after one turn, if the parser goes on. */
  function NextCfg(toks: seq<Token>, c: Cfg): Option<Cfg> {
    if |c.states| == |c.vals| && c.states != [] && Step(toks, c).Continue? then Some(Step(toks, c).cfg) else None
  }

  function Turns(toks: seq<Token>): Cfg -> Option<Cfg> {
    c => NextCfg(toks, c)
  }

  // ---- what is parsed: templates

  datatype Tmpl = Plain(text: string) | Subst(name: string) | For(item: string, expr: string, body: seq<Tmpl>)

  /** Every for-block has a non-empty body: the grammar has no empty template list. */
  predicate WellFormed(t: Tmpl) {
    t.For? ==> t.body != [] && forall i :: 0 <= i < |t.body| ==> WellFormed(t.body[i])
  }

  predicate AllWellFormed(ts: seq<Tmpl>) {
    forall i :: 0 <= i < |ts| ==> WellFormed(ts[i])
  }

  /** Only the text of names and of raw text matters; the other tokens are fixed. */
  function Normal(tok: Token): Token {
    if tok.kind == VAR || tok.kind == RAW_TEXT then tok else Token(tok.kind, "")
  }

  function Normals(toks: seq<Token>): (r: seq<Token>)
    ensures |r| == |toks|
  {
    seq(|toks|, i requires 0 <= i < |toks| => Normal(toks[i]))
  }

  function Fixed(kind: int): Token {
    Token(kind, "")
  }

  /** The tokens of one template. */
  function Print(t: Tmpl): seq<Token>
    decreases t, 1
  {
    match t
    case Plain(text) => [Token(RAW_TEXT, text)]
    case Subst(name) => [Fixed(VAR_START), Token(VAR, name), Fixed(VAR_END)]
    case For(item, expr, body) => Header(item, expr) + PrintAll(body) + Footer()
  }

  function Header(item: string, expr: string): seq<Token> {
    [Fixed(BLOCK_START), Fixed(FOR), Token(VAR, item), Fixed(IN), Token(VAR, expr), Fixed(BLOCK_END)]
  }

  function Footer(): seq<Token> {
    [Fixed(BLOCK_START), Fixed(ENDFOR), Fixed(BLOCK_END)]
  }

  function PrintAll(ts: seq<Tmpl>): seq<Token>
    decreases ts, 0
  {
    if ts == [] then [] else Print(ts[0]) + PrintAll(ts[1..])
  }

  /** The tree the parser should build for one template. */
  function AstOf(t: Tmpl): Ast
    decreases t, 1
  {
    match t
    case Plain(text) => Ast(TextNode, text, [])
    case Subst(name) => Ast(SubstNode, "", [Ast(VarNode, name, [])])
    case For(item, expr, body) =>
      Ast(ForNode, "", [Ast(LoopExprNode, expr, []), Ast(VarNode, item, []), Ast(TemplateNode, "", AstAll(body))])
  }

  function AstAll(ts: seq<Tmpl>): (r: seq<Ast>)
    ensures |r| == |ts|
    decreases ts, 0
  {
    if ts == [] then [] else [AstOf(ts[0])] + AstAll(ts[1..])
  }

  lemma {:induction false} PrintAllAppend(ts: seq<Tmpl>, us: seq<Tmpl>)
    ensures PrintAll(ts + us) == PrintAll(ts) + PrintAll(us)
    ensures AstAll(ts + us) == AstAll(ts) + AstAll(us)
    decreases |ts|
  {
    if ts == [] {
      assert ts + us == us;
    } else {
      assert (ts + us)[1..] == ts[1..] + us;
      PrintAllAppend(ts[1..], us);
    }
  }

  lemma PrintAllOne(t: Tmpl)
    ensures PrintAll([t]) == Print(t) && AstAll([t]) == [AstOf(t)]
  {
    assert [t][1..] == [];
  }
}
