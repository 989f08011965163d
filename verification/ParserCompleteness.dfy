/** The parser accepts every printed template, nested to any depth, and builds its tree in source order. */
module ParserCompleteness {
  import opened Wrappers
  import opened Runs
  import opened LrTables
  import opened ParserModel

  /** Nothing read ahead, nothing pending. */
  function At(S: seq<nat>, V: seq<Val>, pos: nat, root: seq<Ast>): Cfg {
    Cfg(S, V, UNDETERMINED, UNDETERMINED, Null, Null, pos, root)
  }

  /** A left-hand side waits to be shifted; `ahead` has been read already, or is UNDETERMINED. */
  function Waiting(S: seq<nat>, V: seq<Val>, lhs: int, val: Val, ahead: int, pos: nat, root: seq<Ast>): Cfg {
    Cfg(S, V, lhs, ahead, val, Null, pos, root)
  }

  type Rel = (Cfg, Cfg) -> bool

  /** `R` relates every configuration to itself and its successors: all that the proof needs to know of it. */
  ghost predicate Follows(toks: seq<Token>, R: Rel) {
    && (forall c: Cfg {:trigger Step(toks, c)} ::
          |c.states| == |c.vals| && c.states != [] && Step(toks, c).Continue? ==> R(c, Step(toks, c).cfg))
    && (forall c: Cfg :: R(c, c))
    && (forall c: Cfg, d: Cfg, e: Cfg {:trigger R(c, d), R(d, e)} :: R(c, d) && R(d, e) ==> R(c, e))
  }

  lemma OneStep(toks: seq<Token>, R: Rel, c: Cfg, d: Cfg)
    requires Follows(toks, R)
    requires |c.states| == |c.vals| && c.states != [] && Step(toks, c) == Continue(d)
    ensures R(c, d)
  {
  }

  /** Reads and shifts one terminal. */
  lemma Shift(toks: seq<Token>, R: Rel, S: seq<nat>, V: seq<Val>, pos: nat, root: seq<Ast>, q: nat, s: nat)
    requires Follows(toks, R)
    requires |S| == |V| && S != [] && S[|S| - 1] == q && Requires(q) && pos < |toks| && Goto(q, toks[pos].kind) == s > 0
    ensures R(At(S, V, pos, root), At(S + [s], V + [Null], pos + 1, root))
  {
    OneStep(toks, R, At(S, V, pos, root), At(S + [s], V + [Null], pos + 1, root));
  }

  /** Shifts the waiting left-hand side. */
  lemma Arrive(toks: seq<Token>, R: Rel, S: seq<nat>, V: seq<Val>, lhs: int, val: Val, pos: nat, root: seq<Ast>,
               q: nat, s: nat)
    requires Follows(toks, R)
    requires |S| == |V| && S != [] && S[|S| - 1] == q && lhs >= UNIT && Goto(q, lhs) == s > 0
    ensures R(Waiting(S, V, lhs, val, UNDETERMINED, pos, root), At(S + [s], V + [val], pos, root))
  {
    OneStep(toks, R, Waiting(S, V, lhs, val, UNDETERMINED, pos, root), At(S + [s], V + [val], pos, root));
  }

  /** Reduces without looking ahead: `S`, `V` is what lies under the production, `S1`, `V1` the production itself. */
  lemma Fold(toks: seq<Token>, R: Rel, S: seq<nat>, V: seq<Val>, S1: seq<nat>, V1: seq<Val>, pos: nat, root: seq<Ast>,
             rule: int, val: Val)
    requires Follows(toks, R)
    requires |S| == |V| && S != [] && |S1| == |V1| == Production(rule).1 > 0
    requires var q := S1[|S1| - 1]; !Requires(q) && Action(q, UNDETERMINED) == Some(-rule) && rule > 0
    requires var c := At(S + S1, V + V1, pos, root).(val := V1[0]);
      Effect(toks, c, rule) == Some(c.(val := val))
    ensures R(At(S + S1, V + V1, pos, root), Waiting(S, V, Production(rule).0, val, UNDETERMINED, pos, root))
  {
    var c := At(S + S1, V + V1, pos, root);
    assert Below(c, |S1| - 1) == V1[0];
    assert (S + S1)[..|S|] == S && (V + V1)[..|V|] == V;
    OneStep(toks, R, c, Waiting(S, V, Production(rule).0, val, UNDETERMINED, pos, root));
  }

  /** A reduction by `rule`, and the shift of its left-hand side. */
  lemma FoldArrive(toks: seq<Token>, R: Rel, S: seq<nat>, V: seq<Val>, S1: seq<nat>, V1: seq<Val>, pos: nat,
                   root: seq<Ast>, rule: int, val: Val, s: nat)
    requires Follows(toks, R)
    requires |S| == |V| && S != [] && |S1| == |V1| == Production(rule).1 > 0
    requires var q := S1[|S1| - 1]; !Requires(q) && Action(q, UNDETERMINED) == Some(-rule) && 0 < rule <= 12
    requires var c := At(S + S1, V + V1, pos, root).(val := V1[0]);
      Effect(toks, c, rule) == Some(c.(val := val))
    requires Goto(S[|S| - 1], Production(rule).0) == s > 0
    ensures R(At(S + S1, V + V1, pos, root), At(S + [s], V + [val], pos, root))
  {
    Fold(toks, R, S, V, S1, V1, pos, root, rule, val);
    Arrive(toks, R, S, V, Production(rule).0, val, pos, root, S[|S| - 1], s);
  }

  /** The next tokens are `ps`, up to the texts that do not matter. */
  ghost predicate Next(toks: seq<Token>, pos: nat, ps: seq<Token>) {
    pos + |ps| <= |toks| && forall i {:trigger ps[i]} :: 0 <= i < |ps| ==> Normal(toks[pos + i]) == ps[i]
  }

  lemma NextSplit(toks: seq<Token>, pos: nat, ps: seq<Token>, qs: seq<Token>)
    requires Next(toks, pos, ps + qs)
    ensures Next(toks, pos, ps) && Next(toks, pos + |ps|, qs)
  {
    forall i | 0 <= i < |ps| ensures Normal(toks[pos + i]) == ps[i] { assert (ps + qs)[i] == ps[i]; }
    forall i | 0 <= i < |qs| ensures Normal(toks[pos + |ps| + i]) == qs[i] { assert (ps + qs)[|ps| + i] == qs[i]; }
  }

  lemma NextAt(toks: seq<Token>, pos: nat, ps: seq<Token>, i: nat)
    requires Next(toks, pos, ps) && i < |ps|
    ensures pos + i < |toks| && toks[pos + i].kind == ps[i].kind
    ensures ps[i].kind == VAR || ps[i].kind == RAW_TEXT ==> toks[pos + i] == ps[i]
  {
    assert Normal(toks[pos + i]) == ps[i];
  }

  /** A name: shifted, reduced by rule 11 and shifted as a variable. */
  lemma ParseName(toks: seq<Token>, R: Rel, S: seq<nat>, V: seq<Val>, pos: nat, root: seq<Ast>, q: nat, s: nat)
    requires Follows(toks, R)
    requires |S| == |V| && S != [] && S[|S| - 1] == q && pos < |toks| && toks[pos].kind == VAR
    requires (q == 8 && s == 11) || (q == 13 && s == 15) || (q == 16 && s == 17)
    ensures R(At(S, V, pos, root), At(S + [s], V + [Text(toks[pos].text)], pos + 1, root))
  {
    Shift(toks, R, S, V, pos, root, q, 12);
    FoldArrive(toks, R, S, V, [12], [Null], pos + 1, root, 11, Text(toks[pos].text), s);
  }

  predicate Opens(q: nat) {
    q == 0 || q == 2 || q == 18 || q == 19
  }

  lemma ParsePlain(toks: seq<Token>, R: Rel, S: seq<nat>, V: seq<Val>, pos: nat, root: seq<Ast>, q: nat)
    requires Follows(toks, R)
    requires |S| == |V| && S != [] && S[|S| - 1] == q && Opens(q) && pos < |toks| && toks[pos].kind == RAW_TEXT
    ensures R(At(S, V, pos, root),
                    Waiting(S, V, TEMPLATE, Node(AstOf(Plain(toks[pos].text))), UNDETERMINED, pos + 1, root))
  {
    var text := toks[pos].text;
    var c0, c1 := At(S, V, pos, root), At(S + [7], V + [Null], pos + 1, root);
    var c2 := At(S + [4], V + [Text(text)], pos + 1, root);
    Shift(toks, R, S, V, pos, root, q, 7);
    FoldArrive(toks, R, S, V, [7], [Null], pos + 1, root, 12, Text(text), 4);
    Fold(toks, R, S, V, [4], [Text(text)], pos + 1, root, 4, Node(AstOf(Plain(text))));
  }

  /** The three tokens of a substitution, shifted. */
  lemma ShiftSubst(toks: seq<Token>, R: Rel, S: seq<nat>, V: seq<Val>, pos: nat, root: seq<Ast>, q: nat)
    requires Follows(toks, R)
    requires |S| == |V| && S != [] && S[|S| - 1] == q && Opens(q) && pos + 3 <= |toks|
    requires toks[pos].kind == VAR_START && toks[pos + 1].kind == VAR && toks[pos + 2].kind == VAR_END
    ensures R(At(S, V, pos, root), At(S + [8, 11, 14], V + [Null, Text(toks[pos + 1].text), Null], pos + 3, root))
  {
    var S1, V1 := S + [8], V + [Null];
    var S2, V2 := S1 + [11], V1 + [Text(toks[pos + 1].text)];
    var S3, V3 := S2 + [14], V2 + [Null];
    Shift(toks, R, S, V, pos, root, q, 8);
    ParseName(toks, R, S1, V1, pos + 1, root, 8, 11);
    Shift(toks, R, S2, V2, pos + 2, root, 11, 14);
    assert S3 == S + [8, 11, 14] && V3 == V + [Null, Text(toks[pos + 1].text), Null];
  }

  lemma ParseSubst(toks: seq<Token>, R: Rel, S: seq<nat>, V: seq<Val>, pos: nat, root: seq<Ast>, q: nat)
    requires Follows(toks, R)
    requires |S| == |V| && S != [] && S[|S| - 1] == q && Opens(q) && pos + 3 <= |toks|
    requires toks[pos].kind == VAR_START && toks[pos + 1].kind == VAR && toks[pos + 2].kind == VAR_END
    ensures R(At(S, V, pos, root),
                    Waiting(S, V, TEMPLATE, Node(AstOf(Subst(toks[pos + 1].text))), UNDETERMINED, pos + 3, root))
  {
    var name := toks[pos + 1].text;
    var node := Node(Ast(VarNode, name, []));
    var c0, c1 := At(S, V, pos, root), At(S + [8, 11, 14], V + [Null, Text(name), Null], pos + 3, root);
    var c2 := At(S + [5], V + [node], pos + 3, root);
    ShiftSubst(toks, R, S, V, pos, root, q);
    FoldSubst(toks, R, S, V, pos + 3, root, q, name);
    Fold(toks, R, S, V, [5], [node], pos + 3, root, 5, Node(AstOf(Subst(name))));
  }

  lemma FoldSubst(toks: seq<Token>, R: Rel, S: seq<nat>, V: seq<Val>, pos: nat, root: seq<Ast>, q: nat, name: string)
    requires Follows(toks, R)
    requires |S| == |V| && S != [] && S[|S| - 1] == q && Opens(q)
    ensures R(At(S + [8, 11, 14], V + [Null, Text(name), Null], pos, root),
                    At(S + [5], V + [Node(Ast(VarNode, name, []))], pos, root))
  {
    FoldArrive(toks, R, S, V, [8, 11, 14], [Null, Text(name), Null], pos, root, 6, Node(Ast(VarNode, name, [])), 5);
  }

  /** What lies on the stack between a for-block's opening and its body. */
  function HeadStates(q: nat): seq<nat> {
    [if q == 19 then 21 else 9, 13, 15, 16, 17, 18]
  }

  function HeadVals(item: string, expr: string): seq<Val> {
    [Null, Null, Text(item), Null, Text(expr), Null]
  }

  /** `{% for item` */
  lemma ParseItem(toks: seq<Token>, R: Rel, S: seq<nat>, V: seq<Val>, pos: nat, root: seq<Ast>, q: nat)
    requires Follows(toks, R)
    requires |S| == |V| && S != [] && S[|S| - 1] == q && Opens(q) && pos + 3 <= |toks|
    requires toks[pos].kind == BLOCK_START && toks[pos + 1].kind == FOR && toks[pos + 2].kind == VAR
    ensures R(At(S, V, pos, root),
                    At(S + [if q == 19 then 21 else 9, 13, 15], V + [Null, Null, Text(toks[pos + 2].text)],
                       pos + 3, root))
  {
    var a := if q == 19 then 21 else 9;
    var S1, V1 := S + [a], V + [Null];
    var S2, V2 := S1 + [13], V1 + [Null];
    var S3, V3 := S2 + [15], V2 + [Text(toks[pos + 2].text)];
    Shift(toks, R, S, V, pos, root, q, a);
    Shift(toks, R, S1, V1, pos + 1, root, a, 13);
    ParseName(toks, R, S2, V2, pos + 2, root, 13, 15);
    assert S3 == S + [a, 13, 15] && V3 == V + [Null, Null, Text(toks[pos + 2].text)];
  }

  /** `in expr %}` */
  lemma ParseExpr(toks: seq<Token>, R: Rel, S: seq<nat>, V: seq<Val>, pos: nat, root: seq<Ast>)
    requires Follows(toks, R)
    requires |S| == |V| && S != [] && S[|S| - 1] == 15 && pos + 3 <= |toks|
    requires toks[pos].kind == IN && toks[pos + 1].kind == VAR && toks[pos + 2].kind == BLOCK_END
    ensures R(At(S, V, pos, root), At(S + [16, 17, 18], V + [Null, Text(toks[pos + 1].text), Null], pos + 3, root))
  {
    var S1, V1 := S + [16], V + [Null];
    var S2, V2 := S1 + [17], V1 + [Text(toks[pos + 1].text)];
    var S3, V3 := S2 + [18], V2 + [Null];
    Shift(toks, R, S, V, pos, root, 15, 16);
    ParseName(toks, R, S1, V1, pos + 1, root, 16, 17);
    Shift(toks, R, S2, V2, pos + 2, root, 17, 18);
    assert S3 == S + [16, 17, 18] && V3 == V + [Null, Text(toks[pos + 1].text), Null];
  }

  lemma ParseHeader(toks: seq<Token>, R: Rel, S: seq<nat>, V: seq<Val>, pos: nat, root: seq<Ast>, q: nat, item: string,
                    expr: string)
    requires Follows(toks, R)
    requires |S| == |V| && S != [] && S[|S| - 1] == q && Opens(q) && Next(toks, pos, Header(item, expr))
    ensures R(At(S, V, pos, root), At(S + HeadStates(q), V + HeadVals(item, expr), pos + 6, root))
  {
    var h := Header(item, expr);
    NextAt(toks, pos, h, 0);
    NextAt(toks, pos, h, 1);
    NextAt(toks, pos, h, 2);
    NextAt(toks, pos, h, 3);
    NextAt(toks, pos, h, 4);
    NextAt(toks, pos, h, 5);
    var S1, V1 := S + [if q == 19 then 21 else 9, 13, 15], V + [Null, Null, Text(item)];
    var S2, V2 := S1 + [16, 17, 18], V1 + [Null, Text(expr), Null];
    ParseItem(toks, R, S, V, pos, root, q);
    ParseExpr(toks, R, S1, V1, pos + 3, root);
    assert S2 == S + HeadStates(q) && V2 == V + HeadVals(item, expr);
  }

  function ListNode(ts: seq<Tmpl>): Val {
    Node(Ast(TemplateNode, "", AstAll(ts)))
  }

  /** From the template list to the finished for-block, and on to a template. */
  lemma ParseFooter(toks: seq<Token>, R: Rel, S: seq<nat>, V: seq<Val>, pos: nat, root: seq<Ast>, q: nat, item: string,
                    expr: string, body: seq<Tmpl>)
    requires Follows(toks, R)
    requires |S| == |V| && S != [] && S[|S| - 1] == q && Opens(q) && Next(toks, pos, Footer())
    ensures R(At(S + HeadStates(q) + [19], V + HeadVals(item, expr) + [ListNode(body)], pos, root),
                    Waiting(S, V, TEMPLATE, Node(AstOf(For(item, expr, body))), UNDETERMINED, pos + 3, root))
  {
    var node := Node(AstOf(For(item, expr, body)));
    NextAt(toks, pos, Footer(), 0);
    NextAt(toks, pos, Footer(), 1);
    NextAt(toks, pos, Footer(), 2);
    var S0, V0 := S + HeadStates(q) + [19], V + HeadVals(item, expr) + [ListNode(body)];
    var S1, V1 := S0 + [21], V0 + [Null];
    var S2, V2 := S1 + [23], V1 + [Null];
    var S3, V3 := S2 + [24], V2 + [Null];
    Shift(toks, R, S0, V0, pos, root, 19, 21);
    Shift(toks, R, S1, V1, pos + 1, root, 21, 23);
    Shift(toks, R, S2, V2, pos + 2, root, 23, 24);
    var X, Y := HeadStates(q) + [19, 21, 23, 24], HeadVals(item, expr) + [ListNode(body), Null, Null, Null];
    assert S3 == S + X && V3 == V + Y;
    var c4 := Waiting(S, V, FOR_BLOCK, node, UNDETERMINED, pos + 3, root);
    FoldFor(toks, R, S, V, pos + 3, root, q, item, expr, body);
    RaiseBlock(toks, R, S, V, pos + 3, root, q, node);
  }

  lemma FoldFor(toks: seq<Token>, R: Rel, S: seq<nat>, V: seq<Val>, pos: nat, root: seq<Ast>, q: nat, item: string,
                expr: string, body: seq<Tmpl>)
    requires Follows(toks, R)
    requires |S| == |V| && S != []
    ensures R(At(S + (HeadStates(q) + [19, 21, 23, 24]),
                 V + (HeadVals(item, expr) + [ListNode(body), Null, Null, Null]), pos, root),
                    Waiting(S, V, FOR_BLOCK, Node(AstOf(For(item, expr, body))), UNDETERMINED, pos, root))
  {
    var Y := HeadVals(item, expr) + [ListNode(body), Null, Null, Null];
    var c := At(S + (HeadStates(q) + [19, 21, 23, 24]), V + Y, pos, root).(val := Null);
    assert Y[0] == Null && Y[2] == Text(item) && Y[4] == Text(expr) && Y[6] == ListNode(body);
    assert Below(c, 3) == Y[6] && Below(c, 5) == Y[4] && Below(c, 7) == Y[2];
    Fold(toks, R, S, V, HeadStates(q) + [19, 21, 23, 24], Y, pos, root, 10, Node(AstOf(For(item, expr, body))));
  }

  /** for-block, block, template: the node stays the same. */
  lemma RaiseBlock(toks: seq<Token>, R: Rel, S: seq<nat>, V: seq<Val>, pos: nat, root: seq<Ast>, q: nat, node: Val)
    requires Follows(toks, R)
    requires |S| == |V| && S != [] && S[|S| - 1] == q && Opens(q) && node.Node?
    ensures R(Waiting(S, V, FOR_BLOCK, node, UNDETERMINED, pos, root),
              Waiting(S, V, TEMPLATE, node, UNDETERMINED, pos, root))
  {
    var c0, c1 := Waiting(S, V, FOR_BLOCK, node, UNDETERMINED, pos, root), At(S + [6], V + [node], pos, root);
    var c2 := At(S + [3], V + [node], pos, root);
    Arrive(toks, R, S, V, FOR_BLOCK, node, pos, root, q, 6);
    FoldArrive(toks, R, S, V, [6], [node], pos, root, 9, node, 3);
    Fold(toks, R, S, V, [3], [node], pos, root, 3, node);
  }

  /** One template, whatever stands before it and however deep it is nested. */
  lemma {:induction false} ParseOne(toks: seq<Token>, R: Rel, S: seq<nat>, V: seq<Val>, pos: nat, root: seq<Ast>,
                                    t: Tmpl)
    requires Follows(toks, R)
    requires |S| == |V| && S != [] && Opens(S[|S| - 1]) && WellFormed(t) && Next(toks, pos, Print(t))
    ensures R(At(S, V, pos, root),
                    Waiting(S, V, TEMPLATE, Node(AstOf(t)), UNDETERMINED, pos + |Print(t)|, root))
    decreases t, 1
  {
    match t {
      case Plain(text) =>
        NextAt(toks, pos, Print(t), 0);
        ParsePlain(toks, R, S, V, pos, root, S[|S| - 1]);
      case Subst(name) =>
        NextAt(toks, pos, Print(t), 0);
        NextAt(toks, pos, Print(t), 1);
        NextAt(toks, pos, Print(t), 2);
        ParseSubst(toks, R, S, V, pos, root, S[|S| - 1]);
      case For(item, expr, body) =>
        var q := S[|S| - 1];
        var h, b := Header(item, expr), PrintAll(body);
        NextSplit(toks, pos, h + b, Footer());
        NextSplit(toks, pos, h, b);
        var S1, V1 := S + HeadStates(q), V + HeadVals(item, expr);
        ParseHeader(toks, R, S, V, pos, root, q, item, expr);
        ParseBody(toks, R, S1, V1, pos + 6, root, [], body);
        assert [] + body == body;
        var c2 := At(S1 + [19], V1 + [ListNode(body)], pos + 6 + |b|, root);
        ParseFooter(toks, R, S, V, pos + 6 + |b|, root, q, item, expr, body);
    }
  }

  /** The body of a for-block: `done` is already on the stack as a template list, unless it is empty. */
  lemma {:induction false} ParseBody(toks: seq<Token>, R: Rel, S: seq<nat>, V: seq<Val>, pos: nat, root: seq<Ast>,
                                     done: seq<Tmpl>, todo: seq<Tmpl>)
    requires Follows(toks, R)
    requires |S| == |V| && S != [] && S[|S| - 1] == 18 && AllWellFormed(todo) && Next(toks, pos, PrintAll(todo))
    requires done + todo != []
    ensures R(if done == [] then At(S, V, pos, root) else At(S + [19], V + [ListNode(done)], pos, root),
                    At(S + [19], V + [ListNode(done + todo)], pos + |PrintAll(todo)|, root))
    decreases todo, 0
  {
    if todo == [] {
      assert done + todo == done;
    } else {
      var t, pos' := todo[0], pos + |Print(todo[0])|;
      NextSplit(toks, pos, Print(t), PrintAll(todo[1..]));
      var c0 := if done == [] then At(S, V, pos, root) else At(S + [19], V + [ListNode(done)], pos, root);
      var c2 := At(S + [19], V + [ListNode(done + [t])], pos', root);
      ParseOne(toks, R, c0.states, c0.vals, pos, root, t);
      ExtendList(toks, R, S, V, pos', root, done, t);
      ParseBody(toks, R, S, V, pos', root, done + [t], todo[1..]);
      assert done + [t] + todo[1..] == done + todo;
    }
  }

  /** Rules 7 and 8: the finished template starts or extends the list. */
  lemma ExtendList(toks: seq<Token>, R: Rel, S: seq<nat>, V: seq<Val>, pos: nat, root: seq<Ast>, done: seq<Tmpl>,
                   t: Tmpl)
    requires Follows(toks, R)
    requires |S| == |V| && S != [] && S[|S| - 1] == 18
    ensures var (S1, V1) := if done == [] then (S, V) else (S + [19], V + [ListNode(done)]);
      R(Waiting(S1, V1, TEMPLATE, Node(AstOf(t)), UNDETERMINED, pos, root),
              At(S + [19], V + [ListNode(done + [t])], pos, root))
  {
    if done == [] {
      assert done + [t] == [t];
      StartList(toks, R, S, V, pos, root, t);
    } else {
      GrowList(toks, R, S, V, pos, root, done, t);
    }
  }

  lemma StartList(toks: seq<Token>, R: Rel, S: seq<nat>, V: seq<Val>, pos: nat, root: seq<Ast>, t: Tmpl)
    requires Follows(toks, R)
    requires |S| == |V| && S != [] && S[|S| - 1] == 18
    ensures R(Waiting(S, V, TEMPLATE, Node(AstOf(t)), UNDETERMINED, pos, root),
                    At(S + [19], V + [ListNode([t])], pos, root))
  {
    var node := Node(AstOf(t));
    PrintAllOne(t);
    Arrive(toks, R, S, V, TEMPLATE, node, pos, root, 18, 20);
    FoldArrive(toks, R, S, V, [20], [node], pos, root, 7, ListNode([t]), 19);
  }

  lemma GrowList(toks: seq<Token>, R: Rel, S: seq<nat>, V: seq<Val>, pos: nat, root: seq<Ast>, done: seq<Tmpl>, t: Tmpl)
    requires Follows(toks, R)
    requires |S| == |V| && S != [] && S[|S| - 1] == 18
    ensures R(Waiting(S + [19], V + [ListNode(done)], TEMPLATE, Node(AstOf(t)), UNDETERMINED, pos, root),
                    At(S + [19], V + [ListNode(done + [t])], pos, root))
  {
    var node := Node(AstOf(t));
    PrintAllAppend(done, [t]);
    PrintAllOne(t);
    var S1, V1 := S + [19], V + [ListNode(done)];
    Arrive(toks, R, S1, V1, TEMPLATE, node, pos, root, 19, 22);
    assert S1 + [22] == S + [19, 22] && V1 + [node] == V + [ListNode(done), node];
    FoldList(toks, R, S, V, pos, root, done, t);
  }

  lemma FoldList(toks: seq<Token>, R: Rel, S: seq<nat>, V: seq<Val>, pos: nat, root: seq<Ast>, done: seq<Tmpl>, t: Tmpl)
    requires Follows(toks, R)
    requires |S| == |V| && S != [] && S[|S| - 1] == 18 && AstAll(done + [t]) == AstAll(done) + [AstOf(t)]
    ensures R(At(S + [19, 22], V + [ListNode(done), Node(AstOf(t))], pos, root),
                    At(S + [19], V + [ListNode(done + [t])], pos, root))
  {
    FoldArrive(toks, R, S, V, [19, 22], [ListNode(done), Node(AstOf(t))], pos, root, 8, ListNode(done + [t]), 19);
  }

  // ---- the top level

  function Twos(n: nat): (r: seq<nat>)
    ensures |r| == n + 1 && r[0] == 0 && forall i :: 0 < i <= n ==> r[i] == 2
  {
    [0] + seq(n, i => 2)
  }

  function Nodes(ts: seq<Tmpl>): (r: seq<Val>)
    ensures |r| == |ts| + 1 && r[0] == Null && forall i :: 0 < i <= |ts| ==> r[i] == Node(AstOf(ts[i - 1]))
  {
    [Null] + seq(|ts|, i requires 0 <= i < |ts| => Node(AstOf(ts[i])))
  }

  /** All top-level templates pile up on the stack before the first one goes under the root. */
  lemma {:induction false} ParseAll(toks: seq<Token>, R: Rel, pos: nat, done: seq<Tmpl>, todo: seq<Tmpl>)
    requires Follows(toks, R)
    requires AllWellFormed(todo) && Next(toks, pos, PrintAll(todo))
    ensures R(At(Twos(|done|), Nodes(done), pos, []),
                    At(Twos(|done + todo|), Nodes(done + todo), pos + |PrintAll(todo)|, []))
    decreases |todo|
  {
    var c0 := At(Twos(|done|), Nodes(done), pos, []);
    if todo == [] {
      assert done + todo == done;
    } else {
      var t, pos' := todo[0], pos + |Print(todo[0])|;
      NextSplit(toks, pos, Print(t), PrintAll(todo[1..]));
      var q := c0.states[|c0.states| - 1];
      var c1 := Waiting(c0.states, c0.vals, TEMPLATE, Node(AstOf(t)), UNDETERMINED, pos', []);
      var c2 := At(Twos(|done + [t]|), Nodes(done + [t]), pos', []);
      ParseOne(toks, R, c0.states, c0.vals, pos, [], t);
      Arrive(toks, R, c0.states, c0.vals, TEMPLATE, Node(AstOf(t)), pos', [], q, 2);
      assert c0.states + [2] == c2.states && c0.vals + [Node(AstOf(t))] == c2.vals;
      ParseAll(toks, R, pos', done + [t], todo[1..]);
      assert done + [t] + todo[1..] == done + todo;
    }
  }

  /** Rule 1 at the end of the input. */
  lemma OpenUnit(toks: seq<Token>, R: Rel, ts: seq<Tmpl>)
    requires Follows(toks, R)
    ensures R(At(Twos(|ts|), Nodes(ts), |toks|, []),
                    Waiting(Twos(|ts|), Nodes(ts), UNIT, Root, EOF, |toks| + 1, []))
  {
    var c := At(Twos(|ts|), Nodes(ts), |toks|, []);
    assert c.states[..|c.states| - 0] == c.states && c.vals[..|c.vals| - 0] == c.vals;
    OneStep(toks, R, c, Waiting(Twos(|ts|), Nodes(ts), UNIT, Root, EOF, |toks| + 1, []));
  }

  /** Rule 2, over and over: templates leave the stack last to first, and each is prepended. */
  lemma {:induction false} Unwind(toks: seq<Token>, R: Rel, ts: seq<Tmpl>, k: nat, v: Val) returns (w: Val)
    requires Follows(toks, R)
    requires k <= |ts|
    ensures R(Waiting(Twos(k), Nodes(ts[..k]), UNIT, v, EOF, |toks| + 1, AstAll(ts[k..])),
                    Waiting([0], [Null], UNIT, w, EOF, |toks| + 1, AstAll(ts)))
    decreases k
  {
    var c0 := Waiting(Twos(k), Nodes(ts[..k]), UNIT, v, EOF, |toks| + 1, AstAll(ts[k..]));
    if k == 0 {
      assert Twos(0) == [0] && Nodes(ts[..0]) == [Null] && ts[0..] == ts;
      w := v;
    } else {
      var node := Node(AstOf(ts[k - 1]));
      var c1 := Cfg(Twos(k) + [10], Nodes(ts[..k]) + [v], EOF, UNDETERMINED, Null, Null, |toks| + 1, AstAll(ts[k..]));
      var c2 := Waiting(Twos(k - 1), Nodes(ts[..k - 1]), UNIT, node, EOF, |toks| + 1, AstAll(ts[k - 1..]));
      OneStep(toks, R, c0, c1);
      assert ts[k - 1..][1..] == ts[k..];
      assert Below(c1, 1) == node;
      assert c1.states[..|c1.states| - 2] == Twos(k - 1) && c1.vals[..|c1.vals| - 2] == Nodes(ts[..k - 1]);
      OneStep(toks, R, c1, c2);
      w := Unwind(toks, R, ts, k - 1, node);
    }
  }

  lemma Finish(toks: seq<Token>, R: Rel, w: Val, root: seq<Ast>) returns (c: Cfg)
    requires Follows(toks, R)
    ensures R(Waiting([0], [Null], UNIT, w, EOF, |toks| + 1, root), c)
    ensures |c.states| == |c.vals| && c.states != [] && Step(toks, c) == Accept(c) && c.root == root
  {
    c := Cfg([0] + [1], [Null] + [w], EOF, UNDETERMINED, Null, Null, |toks| + 1, root);
    OneStep(toks, R, Waiting([0], [Null], UNIT, w, EOF, |toks| + 1, root), c);
  }

  lemma ParseFile(toks: seq<Token>, R: Rel, ts: seq<Tmpl>) returns (c: Cfg)
    requires Follows(toks, R)
    requires AllWellFormed(ts) && Normals(toks) == PrintAll(ts)
    ensures R(Init(), c) && |c.states| == |c.vals| && c.states != []
    ensures Step(toks, c).Accept? && Step(toks, c).cfg.root == AstAll(ts)
  {
    assert Next(toks, 0, PrintAll(ts)) by {
      forall i | 0 <= i < |PrintAll(ts)| ensures Normal(toks[0 + i]) == PrintAll(ts)[i] {
        assert Normals(toks)[i] == Normal(toks[i]);
      }
    }
    ParseAll(toks, R, 0, [], ts);
    assert Twos(0) == [0] && Nodes([]) == [Null] && [] + ts == ts;
    OpenUnit(toks, R, ts);
    var w := Unwind(toks, R, ts, |ts|, Root);
    assert ts[..|ts|] == ts && ts[|ts|..] == [];
    c := Finish(toks, R, w, AstAll(ts));
  }

  lemma ReachesFollows(toks: seq<Token>, R: Rel)
    requires forall c, d :: R(c, d) <==> Reaches(Turns(toks), c, d)
    ensures Follows(toks, R)
  {
    forall c: Cfg {:trigger Step(toks, c)} | |c.states| == |c.vals| && c.states != [] && Step(toks, c).Continue?
      ensures R(c, Step(toks, c).cfg)
    {
      ReachesStep(Turns(toks), c, Step(toks, c).cfg);
    }
    forall c: Cfg ensures R(c, c) {
      ReachesSelf(Turns(toks), c);
    }
    forall c, d, e {:trigger R(c, d), R(d, e)} | R(c, d) && R(d, e) ensures R(c, e) {
      ReachesTrans(Turns(toks), c, d, e);
    }
  }

  /** Completeness: tokens that spell well-formed templates, at any nesting depth, are accepted, and the
      root's children are the trees of exactly these templates, in source order. */
  lemma Completeness(toks: seq<Token>, ts: seq<Tmpl>) returns (c: Cfg)
    requires AllWellFormed(ts) && Normals(toks) == PrintAll(ts)
    ensures Reaches(Turns(toks), Init(), c) && |c.states| == |c.vals| && c.states != []
    ensures Step(toks, c).Accept? && Step(toks, c).cfg.root == AstAll(ts)
  {
    var R: Rel := (c, d) => Reaches(Turns(toks), c, d);
    ReachesFollows(toks, R);
    c := ParseFile(toks, R, ts);
  }
}
