/** Whatever the parser accepts is a printed template, and the root holds exactly its tree. */
module ParserSoundness {
  import opened Sequences
  import opened Wrappers
  import opened Runs
  import opened LrTables
  import opened ParserModel

  /** What a grammar symbol was derived from. */
  datatype Origin =
    | Tok(tok: Token)
    | UnitS(ts: seq<Tmpl>)
    | TemplateS(t: Tmpl)
    | SubstS(name: string)
    | ListS(ts: seq<Tmpl>)
    | BlockS(t: Tmpl)
    | ForS(t: Tmpl)
    | VarS(text: string)
    | RawS(text: string)

  /** A symbol on the stack, with the tokens it stands for. */
  datatype Sym = Sym(from: Origin, spells: seq<Token>)

  function Kind(s: Sym): int {
    match s.from
    case Tok(tok) => tok.kind
    case UnitS(_) => UNIT
    case TemplateS(_) => TEMPLATE
    case SubstS(_) => SUBST_EXPR
    case ListS(_) => TEMPLATE_LIST
    case BlockS(_) => BLOCK
    case ForS(_) => FOR_BLOCK
    case VarS(_) => VARIABLE
    case RawS(_) => RAW
  }

  function Yield(o: Origin): seq<Token> {
    match o
    case Tok(tok) => [tok]
    case UnitS(ts) => PrintAll(ts)
    case TemplateS(t) => Print(t)
    case SubstS(name) => Print(Subst(name))
    case ListS(ts) => PrintAll(ts)
    case BlockS(t) => Print(t)
    case ForS(t) => Print(t)
    case VarS(text) => [Token(VAR, text)]
    case RawS(text) => [Token(RAW_TEXT, text)]
  }

  function Symbol(o: Origin): Sym {
    Sym(o, Yield(o))
  }

  ghost predicate SymOk(s: Sym) {
    s == Symbol(s.from)
    && match s.from
       case Tok(tok) => Terminal(tok.kind)
       case UnitS(ts) => AllWellFormed(ts)
       case TemplateS(t) => WellFormed(t)
       case ListS(ts) => ts != [] && AllWellFormed(ts)
       case BlockS(t) => t.For? && WellFormed(t)
       case ForS(t) => t.For? && WellFormed(t)
       case _ => true
  }

  /** The value on the stack is the AST of the symbol at its place. */
  ghost predicate ValueOf(s: Sym, v: Val) {
    match s.from
    case Tok(tok) => v == Null
    case UnitS(ts) => true
    case TemplateS(t) => v == Node(AstOf(t))
    case SubstS(name) => v == Node(Ast(VarNode, name, []))
    case ListS(ts) => v == Node(Ast(TemplateNode, "", AstAll(ts)))
    case BlockS(t) => v == Node(AstOf(t))
    case ForS(t) => v == Node(AstOf(t))
    case VarS(text) => v == Text(text)
    case RawS(text) => v == Text(text)
  }

  function Parts(ss: seq<Sym>): (r: seq<seq<Token>>)
    ensures |r| == |ss|
  {
    seq(|ss|, i requires 0 <= i < |ss| => ss[i].spells)
  }

  function Yields(ss: seq<Sym>): seq<Token> {
    Flatten(Parts(ss))
  }

  /** `lookahead` was read but is not part of the stack yet; everything before it is. */
  ghost predicate ReadSoFar(toks: seq<Token>, pos: nat, lookahead: int, consumed: seq<Token>) {
    if lookahead == UNDETERMINED then pos <= |toks| && consumed == Normals(toks[..pos])
    else if lookahead == EOF then pos == |toks| + 1 && consumed == Normals(toks)
    else 1 <= pos <= |toks| && lookahead == toks[pos - 1].kind && consumed == Normals(toks[..pos - 1])
  }

  ghost predicate EntryOk(c: Cfg, syms: seq<Sym>, i: nat)
    requires i < |syms| && |c.states| == |c.vals| == |syms| + 1
  {
    Goto(c.states[i], Kind(syms[i])) == c.states[i + 1] > 0 && SymOk(syms[i]) && ValueOf(syms[i], c.vals[i + 1])
  }

  ghost predicate StackOk(c: Cfg, syms: seq<Sym>) {
    && |c.states| == |c.vals| == |syms| + 1
    && c.states[0] == 0 && c.vals[0] == Null
    && forall i :: 0 <= i < |syms| ==> EntryOk(c, syms, i)
  }

  /** The two states a unit leads to. */
  predicate AfterUnit(state: nat) {
    state == 1 || state == 10
  }

  /** Between turns nothing has been read ahead, unless the whole input has been recognised as a unit. */
  ghost predicate Settled(toks: seq<Token>, c: Cfg, syms: seq<Sym>) {
    && StackOk(c, syms)
    && c.nextToken == UNDETERMINED && c.val == Null && c.nextVal == Null
    && (c.token == UNDETERMINED || AfterUnit(Top(c)))
    && (c.token == UNDETERMINED || c.token == EOF || Terminal(c.token))
    && ReadSoFar(toks, c.pos, c.token, Yields(syms))
    && (AfterUnit(Top(c)) ==>
          syms != [] && syms[|syms| - 1].from.UnitS? && c.root == AstAll(syms[|syms| - 1].from.ts)
            && c.token != UNDETERMINED)
    && (!AfterUnit(Top(c)) ==> c.root == [])
  }

  /** Right after a reduction: the left-hand side `pend` is the current token, to be shifted next. */
  ghost predicate Pending(toks: seq<Token>, c: Cfg, syms: seq<Sym>, pend: Sym) {
    && StackOk(c, syms) && !pend.from.Tok? && SymOk(pend) && ValueOf(pend, c.val)
    && c.token == Kind(pend) && c.nextVal == Null && Goto(Top(c), Kind(pend)) > 0
    && (c.nextToken == UNDETERMINED || (pend.from.UnitS? && (c.nextToken == EOF || Terminal(c.nextToken))))
    && (pend.from.UnitS? ==> c.nextToken != UNDETERMINED)
    && ReadSoFar(toks, c.pos, c.nextToken, Yields(syms) + pend.spells)
    && c.root == if pend.from.UnitS? then AstAll(pend.from.ts) else []
  }

  ghost predicate IsSettled(toks: seq<Token>, c: Cfg) {
    exists syms :: Settled(toks, c, syms)
  }

  ghost predicate IsPending(toks: seq<Token>, c: Cfg) {
    exists syms, pend :: Pending(toks, c, syms, pend)
  }

  /** What holds before every turn of the loop. */
  ghost predicate Invariant(toks: seq<Token>, c: Cfg) {
    IsSettled(toks, c) || IsPending(toks, c)
  }

  /** The tokens derive from the grammar, and these are the templates they are derived from. */
  ghost predicate Derives(toks: seq<Token>, ts: seq<Tmpl>) {
    AllWellFormed(ts) && Normals(toks) == PrintAll(ts)
  }

  lemma YieldsSnoc(ss: seq<Sym>, s: Sym)
    ensures Yields(ss + [s]) == Yields(ss) + s.spells
  {
    assert Parts(ss + [s]) == Parts(ss) + [s.spells];
    assert (Parts(ss) + [s.spells])[..|ss|] == Parts(ss);
  }

  lemma FlatTail1(ps: seq<seq<Token>>)
    requires |ps| >= 1
    ensures Flatten(ps) == Flatten(ps[..|ps| - 1]) + ps[|ps| - 1]
  {
  }

  lemma FlatTail2(ps: seq<seq<Token>>)
    requires |ps| >= 2
    ensures Flatten(ps) == Flatten(ps[..|ps| - 2]) + (ps[|ps| - 2] + ps[|ps| - 1])
  {
    var init := ps[..|ps| - 1];
    assert init[..|ps| - 2] == ps[..|ps| - 2] && init[|ps| - 2] == ps[|ps| - 2];
    Assoc(Flatten(ps[..|ps| - 2]), ps[|ps| - 2], ps[|ps| - 1]);
  }

  lemma FlatTail3(ps: seq<seq<Token>>)
    requires |ps| >= 3
    ensures Flatten(ps) == Flatten(ps[..|ps| - 3]) + (ps[|ps| - 3] + ps[|ps| - 2] + ps[|ps| - 1])
  {
    var init := ps[..|ps| - 1];
    assert init[..|ps| - 3] == ps[..|ps| - 3] && init[|ps| - 2] == ps[|ps| - 2] && init[|ps| - 3] == ps[|ps| - 3];
    FlatTail2(init);
    Assoc(Flatten(ps[..|ps| - 3]), ps[|ps| - 3] + ps[|ps| - 2], ps[|ps| - 1]);
  }

  lemma PartsTake(ss: seq<Sym>, n: nat)
    requires n <= |ss|
    ensures Parts(ss)[..n] == Parts(ss[..n])
  {
  }

  /** Pushing a symbol that the top state has a transition for. */
  lemma StackPush(c: Cfg, syms: seq<Sym>, s: Sym, d: Cfg)
    requires StackOk(c, syms) && Goto(Top(c), Kind(s)) > 0 && SymOk(s) && ValueOf(s, c.val)
    requires d.states == c.states + [Goto(Top(c), Kind(s))] && d.vals == c.vals + [c.val]
    ensures StackOk(d, syms + [s])
  {
    forall i | 0 <= i < |syms| + 1 ensures EntryOk(d, syms + [s], i) {
      if i < |syms| { assert EntryOk(c, syms, i); }
    }
  }

  lemma StackPop(c: Cfg, syms: seq<Sym>, size: nat, d: Cfg)
    requires StackOk(c, syms) && size <= |syms|
    requires d.states == c.states[..|c.states| - size] && d.vals == c.vals[..|c.vals| - size]
    ensures StackOk(d, syms[..|syms| - size])
  {
    var rest := syms[..|syms| - size];
    forall i | 0 <= i < |rest| ensures EntryOk(d, rest, i) { assert EntryOk(c, syms, i); }
  }

  /** The symbol `k` places below the top, and the state it was shifted from. */
  lemma Back(c: Cfg, syms: seq<Sym>, k: nat, to: nat)
    requires StackOk(c, syms) && k < |c.states| && c.states[|c.states| - 1 - k] == to && to != 0
    ensures k < |syms| && Kind(syms[|syms| - 1 - k]) == Accessing(to) && CanPrecede(c.states[|syms| - 1 - k], to)
    ensures SymOk(syms[|syms| - 1 - k]) && ValueOf(syms[|syms| - 1 - k], Below(c, k))
  {
    if k < |syms| {
      assert EntryOk(c, syms, |syms| - 1 - k);
      Incoming(c.states[|syms| - 1 - k], Kind(syms[|syms| - 1 - k]), to);
    }
  }

  /** A turn that shifts. */
  lemma StepShifts(toks: seq<Token>, c: Cfg, d: Cfg)
    requires |c.states| == |c.vals| && c.states != []
    requires var c1 := Prepared(toks, c);
      Goto(Top(c), c1.token) > 0 && d == PopToken(Push(c1, Goto(Top(c), c1.token)))
    ensures Step(toks, c) == Continue(d)
  {
  }

  /** A turn that reduces without looking at a token. */
  lemma StepReduces(toks: seq<Token>, c: Cfg, rule: int, d: Cfg)
    requires |c.states| == |c.vals| && c.states != [] && !Requires(Top(c)) && c.token == UNDETERMINED
    requires Action(Top(c), UNDETERMINED) == Some(-rule) && 0 < rule && 0 < Production(rule).1 < |c.states|
    requires Effect(toks, c.(val := Below(c, Production(rule).1 - 1)), rule) == Some(d) && d.states == c.states
    requires d.vals == c.vals
    ensures Step(toks, c)
      == Continue(d.(token := Production(rule).0, states := c.states[..|c.states| - Production(rule).1],
                     vals := c.vals[..|c.vals| - Production(rule).1]))
  {
  }

  /** Shifting a token that was just scanned. */
  lemma ShiftSettled(toks: seq<Token>, c: Cfg, syms: seq<Sym>)
    requires Scanned(toks) && Settled(toks, c, syms) && c.token == UNDETERMINED && Requires(Top(c)) && c.pos < |toks|
    requires Goto(Top(c), toks[c.pos].kind) > 0
    ensures var o := Step(toks, c);
      o.Continue? && Settled(toks, o.cfg, syms + [Symbol(Tok(Normal(toks[c.pos])))]) && o.cfg.pos == c.pos + 1
  {
    var d := PopToken(Push(NextToken(toks, c), Goto(Top(c), toks[c.pos].kind)));
    PushedToken(toks, c, syms, d);
    StepShifts(toks, c, d);
  }

  lemma PushedToken(toks: seq<Token>, c: Cfg, syms: seq<Sym>, d: Cfg)
    requires Scanned(toks) && Settled(toks, c, syms) && c.token == UNDETERMINED && c.pos < |toks|
    requires Goto(Top(c), toks[c.pos].kind) > 0
    requires d == c.(states := c.states + [Goto(Top(c), toks[c.pos].kind)], vals := c.vals + [Null], pos := c.pos + 1)
    ensures Settled(toks, d, syms + [Symbol(Tok(Normal(toks[c.pos])))])
  {
    var s := Symbol(Tok(Normal(toks[c.pos])));
    YieldsSnoc(syms, s);
    StackPush(c, syms, s, d);
  }

  /** Shifting a left-hand side. */
  lemma ShiftPending(toks: seq<Token>, c: Cfg, syms: seq<Sym>, pend: Sym)
    requires Pending(toks, c, syms, pend)
    ensures var o := Step(toks, c);
      o.Continue? && Settled(toks, o.cfg, syms + [pend]) && o.cfg.pos == c.pos
      && |o.cfg.states| == |c.states| + 1 && Top(o.cfg) == Goto(Top(c), Kind(pend))
  {
    var d := PopToken(Push(c, Goto(Top(c), c.token)));
    PushedPending(toks, c, syms, pend, d);
    StepShifts(toks, c, d);
  }

  lemma PushedPending(toks: seq<Token>, c: Cfg, syms: seq<Sym>, pend: Sym, d: Cfg)
    requires Pending(toks, c, syms, pend) && d == PopToken(Push(c, Goto(Top(c), c.token)))
    ensures Settled(toks, d, syms + [pend])
  {
    YieldsSnoc(syms, pend);
    StackPush(c, syms, pend, d);
    Incoming(Top(c), Kind(pend), Top(d));
  }

  /** The turns that are left before the next token must be read. */
  function Weight(c: Cfg): nat
    requires c.states != []
  {
    if c.token == UNIT then 2 * |c.states| + 3
    else if c.token >= UNIT then
      if c.token == FOR_BLOCK then 7
      else if c.token == RAW || c.token == BLOCK || c.token == SUBST_EXPR then 5
      else if c.token == TEMPLATE then 3
      else 1
    else if AfterUnit(Top(c)) then 2 * |c.states|
    else if Top(c) == 24 then 8
    else if Top(c) == 6 || Top(c) == 7 || Top(c) == 14 then 6
    else if 3 <= Top(c) <= 5 then 4
    else if Top(c) == 12 || Top(c) == 20 || Top(c) == 22 then 2
    else 0
  }

  /** The invariant of the loop, its progress, and what its two ends mean: it never crashes, it aborts only on a
      token without an entry and never in a reduction, and it accepts only what the grammar derives. */
  ghost predicate GoodTurn(toks: seq<Token>, c: Cfg, o: Outcome)
    requires c.states != []
  {
    match o
    case Continue(d) =>
      && Invariant(toks, d) && |d.states| == |d.vals| && d.states != [] && d.pos <= |toks| + 1
      && (d.pos > c.pos || (d.pos == c.pos && Weight(d) < Weight(c)))
    case Accept(d) => exists ts :: Derives(toks, ts) && d.root == AstAll(ts)
    case Abort => Action(Top(c), Prepared(toks, c).token) == None
    case Crash => false
  }

  lemma PendingGood(toks: seq<Token>, c: Cfg, syms: seq<Sym>, pend: Sym)
    requires |c.states| == |c.vals| && c.states != [] && Step(toks, c).Continue?
    requires var d := Step(toks, c).cfg;
      Pending(toks, d, syms, pend)
        && (c.pos < d.pos <= |toks| + 1 || (c.pos == d.pos <= |toks| + 1 && Weight(d) < Weight(c)))
    ensures GoodTurn(toks, c, Step(toks, c))
  {
    assert IsPending(toks, Step(toks, c).cfg);
  }

  /** The result of a reduction by `rule` to `pend`, given that the popped symbols yield what `pend` yields. */
  lemma Reduced(toks: seq<Token>, c: Cfg, syms: seq<Sym>, rule: int, pend: Sym, v: Val)
    requires Settled(toks, c, syms) && !Requires(Top(c)) && Top(c) != 10
    requires Action(Top(c), UNDETERMINED) == Some(-rule) && 0 < rule
    requires Production(rule).0 == Kind(pend) && 0 < Production(rule).1 <= |syms| && !pend.from.Tok?
    requires !pend.from.UnitS? && SymOk(pend)
    requires Yields(syms) == Yields(syms[..|syms| - Production(rule).1]) + pend.spells
    requires Goto(c.states[|c.states| - 1 - Production(rule).1], Kind(pend)) > 0
    requires Effect(toks, c.(val := Below(c, Production(rule).1 - 1)), rule) == Some(c.(val := v)) && ValueOf(pend, v)
    requires Weight(c.(token := Kind(pend))) < Weight(c)
    ensures GoodTurn(toks, c, Step(toks, c)) && Step(toks, c).Continue? && Step(toks, c).cfg.val == v
  {
    assert Top(c) != 1 by { RequiresWhich(Top(c)); }
    var size := Production(rule).1;
    StepReduces(toks, c, rule, c.(val := v));
    StackPop(c, syms, size, Step(toks, c).cfg);
    PendingGood(toks, c, syms[..|syms| - size], pend);
  }

  /** A fixed terminal on the stack is determined by its kind, since only normalised tokens get there. */
  lemma FixedOnStack(toks: seq<Token>, c: Cfg, syms: seq<Sym>, i: nat)
    requires Settled(toks, c, syms) && i < |syms| && syms[i].from.Tok? && Kind(syms[i]) != VAR
    requires Kind(syms[i]) != RAW_TEXT
    ensures syms[i].spells == [Fixed(Kind(syms[i]))]
  {
    assert EntryOk(c, syms, i);
    assert Parts(syms)[i] == [syms[i].from.tok];
    FlatHas(Parts(syms), i, syms[i].from.tok);
    assert syms[i].from.tok in Yields(syms);
  }

  lemma {:induction false} FlatHas(ps: seq<seq<Token>>, i: nat, x: Token)
    requires i < |ps| && x in ps[i]
    ensures x in Flatten(ps)
  {
    if i < |ps| - 1 {
      FlatHas(ps[..|ps| - 1], i, x);
    }
  }

  /** The symbol under states 7 and 12 is the token the scanner has just passed. */
  lemma LeafTail(toks: seq<Token>, c: Cfg, syms: seq<Sym>)
    requires Settled(toks, c, syms) && c.token == UNDETERMINED && (Top(c) == 7 || Top(c) == 12)
    ensures syms != [] && 0 < c.pos <= |toks| && syms[|syms| - 1] == Symbol(Tok(toks[c.pos - 1]))
    ensures toks[c.pos - 1].kind == if Top(c) == 7 then RAW_TEXT else VAR
    ensures c.states[|c.states| - 2] in {0, 2, 18, 19} || Top(c) == 12
    ensures c.states[|c.states| - 2] in {8, 13, 16} || Top(c) == 7
  {
    var n := |syms|;
    Back(c, syms, 0, Top(c));
    FlatTail1(Parts(syms));
    assert syms[n - 1].from.Tok?;
    assert Yields(syms)[|Yields(syms)| - 1] == syms[n - 1].from.tok;
  }

  /** Rules 11 and 12 fire while the scanner still stands right after their token. */
  lemma ReduceLeaf(toks: seq<Token>, c: Cfg, syms: seq<Sym>)
    requires Settled(toks, c, syms) && (Top(c) == 7 || Top(c) == 12)
    ensures syms != [] && 0 < c.pos <= |toks| && syms[|syms| - 1] == Symbol(Tok(toks[c.pos - 1]))
    ensures GoodTurn(toks, c, Step(toks, c)) && Step(toks, c).Continue?
    ensures Step(toks, c).cfg.val == Text(toks[c.pos - 1].text)
  {
    hide Step;
    hide GoodTurn;
    hide Flatten;
    RequiresWhich(Top(c));
    LeafTail(toks, c, syms);
    var pend := if Top(c) == 7 then Symbol(RawS(toks[c.pos - 1].text)) else Symbol(VarS(toks[c.pos - 1].text));
    PartsTake(syms, |syms| - 1);
    FlatTail1(Parts(syms));
    assert pend.spells == Parts(syms)[|syms| - 1];
    Reduced(toks, c, syms, if Top(c) == 7 then 12 else 11, pend, Text(toks[c.pos - 1].text));
  }

  /** Rules 3, 4, 5 and 9: one symbol becomes another with the same yield. */
  lemma ReduceUnary(toks: seq<Token>, c: Cfg, syms: seq<Sym>, rule: int, pend: Sym, v: Val)
    requires Settled(toks, c, syms) && syms != [] && !Requires(Top(c)) && Top(c) != 10
    requires Action(Top(c), UNDETERMINED) == Some(-rule) && 0 < rule && Production(rule) == (Kind(pend), 1)
    requires !pend.from.Tok? && !pend.from.UnitS? && SymOk(pend) && syms[|syms| - 1].spells == pend.spells
    requires Goto(c.states[|c.states| - 2], Kind(pend)) > 0
    requires Effect(toks, c.(val := Below(c, 0)), rule) == Some(c.(val := v)) && ValueOf(pend, v)
    requires Weight(c.(token := Kind(pend))) < Weight(c)
    ensures GoodTurn(toks, c, Step(toks, c))
  {
    PartsTake(syms, |syms| - 1);
    FlatTail1(Parts(syms));
    assert Parts(syms)[|syms| - 1] == pend.spells;
    Reduced(toks, c, syms, rule, pend, v);
  }

  lemma RaiseBlock(toks: seq<Token>, c: Cfg, syms: seq<Sym>)
    requires Settled(toks, c, syms) && Top(c) == 3
    ensures GoodTurn(toks, c, Step(toks, c))
  {
    RequiresWhich(3);
    Back(c, syms, 0, 3);
    var pend := Symbol(TemplateS(syms[|syms| - 1].from.t));
    ReduceUnary(toks, c, syms, 3, pend, Node(AstOf(pend.from.t)));
  }

  lemma RaiseRaw(toks: seq<Token>, c: Cfg, syms: seq<Sym>)
    requires Settled(toks, c, syms) && Top(c) == 4
    ensures GoodTurn(toks, c, Step(toks, c))
  {
    RequiresWhich(4);
    Back(c, syms, 0, 4);
    var pend := Symbol(TemplateS(Plain(syms[|syms| - 1].from.text)));
    ReduceUnary(toks, c, syms, 4, pend, Node(AstOf(pend.from.t)));
  }

  lemma RaiseSubst(toks: seq<Token>, c: Cfg, syms: seq<Sym>)
    requires Settled(toks, c, syms) && Top(c) == 5
    ensures GoodTurn(toks, c, Step(toks, c))
  {
    RequiresWhich(5);
    Back(c, syms, 0, 5);
    var pend := Symbol(TemplateS(Subst(syms[|syms| - 1].from.name)));
    ReduceUnary(toks, c, syms, 5, pend, Node(AstOf(pend.from.t)));
  }

  lemma RaiseFor(toks: seq<Token>, c: Cfg, syms: seq<Sym>)
    requires Settled(toks, c, syms) && Top(c) == 6
    ensures GoodTurn(toks, c, Step(toks, c))
  {
    RequiresWhich(6);
    Back(c, syms, 0, 6);
    var pend := Symbol(BlockS(syms[|syms| - 1].from.t));
    ReduceUnary(toks, c, syms, 9, pend, Node(AstOf(pend.from.t)));
  }

  /** Rule 7 */
  lemma RaiseTemplate(toks: seq<Token>, c: Cfg, syms: seq<Sym>)
    requires Settled(toks, c, syms) && Top(c) == 20
    ensures GoodTurn(toks, c, Step(toks, c))
  {
    RequiresWhich(20);
    Back(c, syms, 0, 20);
    var pend := Symbol(ListS([syms[|syms| - 1].from.t]));
    PrintAllOne(syms[|syms| - 1].from.t);
    ReduceUnary(toks, c, syms, 7, pend, Node(Ast(TemplateNode, "", AstAll(pend.from.ts))));
  }

  lemma SubstTail(c: Cfg, syms: seq<Sym>)
    requires StackOk(c, syms) && Top(c) == 14
    ensures |syms| >= 3
    ensures var n := |syms|;
      && syms[n - 1].from.Tok? && Kind(syms[n - 1]) == VAR_END
      && syms[n - 2].from.VarS? && syms[n - 2].spells == [Token(VAR, syms[n - 2].from.text)]
      && Below(c, 1) == Text(syms[n - 2].from.text)
      && syms[n - 3].from.Tok? && Kind(syms[n - 3]) == VAR_START
      && CanPrecede(c.states[n - 3], 8)
  {
    Back(c, syms, 0, 14);
    Back(c, syms, 1, 11);
    Back(c, syms, 2, 8);
  }

  lemma SubstYield(toks: seq<Token>, c: Cfg, syms: seq<Sym>)
    requires Settled(toks, c, syms) && Top(c) == 14
    ensures |syms| >= 3 && syms[|syms| - 2].from.VarS?
    ensures Yields(syms) == Yields(syms[..|syms| - 3]) + Yield(SubstS(syms[|syms| - 2].from.text))
  {
    var n := |syms|;
    SubstTail(c, syms);
    FixedOnStack(toks, c, syms, n - 1);
    FixedOnStack(toks, c, syms, n - 3);
    PartsTake(syms, n - 3);
    FlatTail3(Parts(syms));
    var ps := Parts(syms);
    assert ps[n - 3] + ps[n - 2] + ps[n - 1] == Yield(SubstS(syms[n - 2].from.text));
  }

  /** Rule 6 */
  lemma ReduceSubst(toks: seq<Token>, c: Cfg, syms: seq<Sym>)
    requires Settled(toks, c, syms) && Top(c) == 14
    ensures GoodTurn(toks, c, Step(toks, c))
  {
    RequiresWhich(14);
    SubstTail(c, syms);
    SubstYield(toks, c, syms);
    var pend := Symbol(SubstS(syms[|syms| - 2].from.text));
    Reduced(toks, c, syms, 6, pend, Node(Ast(VarNode, pend.from.name, [])));
  }

  lemma ListSpells(syms: seq<Sym>, ts: seq<Tmpl>, t: Tmpl)
    requires |syms| >= 2 && syms[|syms| - 2].spells == PrintAll(ts) && syms[|syms| - 1].spells == Print(t)
    ensures Yields(syms) == Yields(syms[..|syms| - 2]) + PrintAll(ts + [t])
    ensures AstAll(ts + [t]) == AstAll(ts) + [AstOf(t)]
  {
    hide Flatten;
    hide PrintAll;
    hide AstAll;
    PartsTake(syms, |syms| - 2);
    FlatTail2(Parts(syms));
    PrintAllAppend(ts, [t]);
    PrintAllOne(t);
  }

  lemma ListYield(c: Cfg, syms: seq<Sym>)
    requires StackOk(c, syms) && Top(c) == 22
    ensures |syms| >= 2
    ensures var n := |syms|;
      && syms[n - 1].from.TemplateS? && SymOk(syms[n - 1]) && ValueOf(syms[n - 1], Below(c, 0))
      && syms[n - 2].from.ListS? && SymOk(syms[n - 2]) && ValueOf(syms[n - 2], Below(c, 1))
      && c.states[n - 2] == 18 && SymOk(Symbol(ListS(syms[n - 2].from.ts + [syms[n - 1].from.t])))
      && AstAll(syms[n - 2].from.ts + [syms[n - 1].from.t]) == AstAll(syms[n - 2].from.ts) + [AstOf(syms[n - 1].from.t)]
      && Yields(syms) == Yields(syms[..n - 2]) + Yield(ListS(syms[n - 2].from.ts + [syms[n - 1].from.t]))
  {
    hide Flatten;
    hide PrintAll;
    hide AstAll;
    hide Yields;
    var n := |syms|;
    Back(c, syms, 0, 22);
    Back(c, syms, 1, 19);
    ListSpells(syms, syms[n - 2].from.ts, syms[n - 1].from.t);
    assert AllWellFormed(syms[n - 2].from.ts + [syms[n - 1].from.t]);
  }

  /** Rule 8: the list grows on the right. */
  lemma ReduceList(toks: seq<Token>, c: Cfg, syms: seq<Sym>)
    requires Settled(toks, c, syms) && Top(c) == 22
    ensures GoodTurn(toks, c, Step(toks, c))
  {
    RequiresWhich(22);
    ListYield(c, syms);
    var pend := Symbol(ListS(syms[|syms| - 2].from.ts + [syms[|syms| - 1].from.t]));
    Reduced(toks, c, syms, 8, pend, Node(Ast(TemplateNode, "", AstAll(pend.from.ts))));
  }

  lemma FlatTail4(ps: seq<seq<Token>>)
    requires |ps| >= 4
    ensures Flatten(ps) == Flatten(ps[..|ps| - 4]) + (ps[|ps| - 4] + ps[|ps| - 3] + ps[|ps| - 2] + ps[|ps| - 1])
  {
    var init := ps[..|ps| - 1];
    assert init[..|ps| - 4] == ps[..|ps| - 4];
    assert init[|ps| - 2] == ps[|ps| - 2] && init[|ps| - 3] == ps[|ps| - 3] && init[|ps| - 4] == ps[|ps| - 4];
    FlatTail3(init);
    Assoc(Flatten(ps[..|ps| - 4]), ps[|ps| - 4] + ps[|ps| - 3] + ps[|ps| - 2], ps[|ps| - 1]);
  }

  lemma TakeTail4(ps: seq<seq<Token>>, z: seq<Token>)
    requires |ps| >= 4 && z == ps[|ps| - 4] + ps[|ps| - 3] + ps[|ps| - 2] + ps[|ps| - 1]
    ensures Flatten(ps) == Flatten(ps[..|ps| - 4]) + z
  {
    FlatTail4(ps);
  }

  lemma TakeTail3(ps: seq<seq<Token>>, n: nat, y: seq<Token>)
    requires 3 <= n <= |ps| && y == ps[n - 3] + ps[n - 2] + ps[n - 1]
    ensures Flatten(ps[..n]) == Flatten(ps[..n - 3]) + y
  {
    var qs := ps[..n];
    assert qs[..n - 3] == ps[..n - 3];
    FlatTail3(qs);
  }

  lemma Regroup(f: seq<Token>, g: seq<Token>, h: seq<Token>, a: seq<Token>, x: seq<Token>, y: seq<Token>, z: seq<Token>)
    requires f == g + z && g == h + y && h == a + x
    ensures f == a + (x + y + z)
  {
  }

  /** The symbols under state 24, found by walking back through the states: first the body and the footer ... */
  lemma BodyTail(c: Cfg, syms: seq<Sym>) returns (body: seq<Tmpl>)
    requires StackOk(c, syms) && Top(c) == 24
    ensures |syms| >= 4
    ensures var n := |syms|;
      && syms[n - 1].from.Tok? && Kind(syms[n - 1]) == BLOCK_END
      && syms[n - 2].from.Tok? && Kind(syms[n - 2]) == ENDFOR
      && syms[n - 3].from.Tok? && Kind(syms[n - 3]) == BLOCK_START
      && syms[n - 4].spells == PrintAll(body) && Below(c, 3) == Node(Ast(TemplateNode, "", AstAll(body)))
      && body != [] && AllWellFormed(body)
      && c.states[n - 4] == 18
  {
    Back(c, syms, 0, 24);
    Back(c, syms, 1, 23);
    Back(c, syms, 2, 21);
    Back(c, syms, 3, 19);
    body := syms[|syms| - 4].from.ts;
  }

  /** ... then the header, its second half first. */
  lemma HeadExpr(c: Cfg, syms: seq<Sym>) returns (expr: string)
    requires StackOk(c, syms) && |syms| >= 4 && c.states[|syms| - 4] == 18
    ensures |syms| >= 7
    ensures var n := |syms|;
      && syms[n - 5].from.Tok? && Kind(syms[n - 5]) == BLOCK_END
      && syms[n - 6].spells == [Token(VAR, expr)] && Below(c, 5) == Text(expr)
      && syms[n - 7].from.Tok? && Kind(syms[n - 7]) == IN
      && c.states[n - 7] == 15
  {
    Back(c, syms, 4, 18);
    Back(c, syms, 5, 17);
    Back(c, syms, 6, 16);
    expr := syms[|syms| - 6].from.text;
  }

  lemma HeadItem(c: Cfg, syms: seq<Sym>) returns (item: string)
    requires StackOk(c, syms) && |syms| >= 7 && c.states[|syms| - 7] == 15
    ensures |syms| >= 10
    ensures var n := |syms|;
      && syms[n - 8].spells == [Token(VAR, item)] && Below(c, 7) == Text(item)
      && syms[n - 9].from.Tok? && Kind(syms[n - 9]) == FOR
      && syms[n - 10].from.Tok? && Kind(syms[n - 10]) == BLOCK_START
      && (c.states[n - 10] == 0 || c.states[n - 10] == 2 || c.states[n - 10] == 18 || c.states[n - 10] == 19)
  {
    Back(c, syms, 7, 15);
    Back(c, syms, 8, 13);
    Back(c, syms, 9, c.states[|syms| - 9]);
    item := syms[|syms| - 8].from.text;
  }

  /** The ten parts in three groups: the two halves of the header, and the body with the footer. */
  lemma ForParts(ps: seq<seq<Token>>, item: string, expr: string, body: seq<Tmpl>)
    requires |ps| >= 10
    requires var n := |ps|;
      && ps[n - 1] == [Fixed(BLOCK_END)] && ps[n - 2] == [Fixed(ENDFOR)] && ps[n - 3] == [Fixed(BLOCK_START)]
      && ps[n - 4] == PrintAll(body)
      && ps[n - 5] == [Fixed(BLOCK_END)] && ps[n - 6] == [Token(VAR, expr)] && ps[n - 7] == [Fixed(IN)]
      && ps[n - 8] == [Token(VAR, item)] && ps[n - 9] == [Fixed(FOR)] && ps[n - 10] == [Fixed(BLOCK_START)]
    ensures Flatten(ps) == Flatten(ps[..|ps| - 10]) + Print(For(item, expr, body))
  {
    var n := |ps|;
    var x := ps[n - 10] + ps[n - 9] + ps[n - 8];
    var y := ps[n - 7] + ps[n - 6] + ps[n - 5];
    var z := ps[n - 4] + ps[n - 3] + ps[n - 2] + ps[n - 1];
    TakeTail4(ps, z);
    TakeTail3(ps, n - 4, y);
    TakeTail3(ps, n - 7, x);
    Regroup(Flatten(ps), Flatten(ps[..n - 4]), Flatten(ps[..n - 7]), Flatten(ps[..n - 10]), x, y, z);
    assert x + y == Header(item, expr) && z == PrintAll(body) + Footer();
    Assoc(Header(item, expr), PrintAll(body), Footer());
  }

  /** What the ten symbols spell is a for-block. */
  lemma ForYield(toks: seq<Token>, c: Cfg, syms: seq<Sym>, item: string, expr: string, body: seq<Tmpl>)
    requires Settled(toks, c, syms) && |syms| >= 10
    requires var n := |syms|;
      && syms[n - 1].from.Tok? && Kind(syms[n - 1]) == BLOCK_END
      && syms[n - 2].from.Tok? && Kind(syms[n - 2]) == ENDFOR
      && syms[n - 3].from.Tok? && Kind(syms[n - 3]) == BLOCK_START
      && syms[n - 4].spells == PrintAll(body)
      && syms[n - 5].from.Tok? && Kind(syms[n - 5]) == BLOCK_END
      && syms[n - 6].spells == [Token(VAR, expr)]
      && syms[n - 7].from.Tok? && Kind(syms[n - 7]) == IN
      && syms[n - 8].spells == [Token(VAR, item)]
      && syms[n - 9].from.Tok? && Kind(syms[n - 9]) == FOR
      && syms[n - 10].from.Tok? && Kind(syms[n - 10]) == BLOCK_START
    ensures Yields(syms) == Yields(syms[..|syms| - 10]) + Print(For(item, expr, body))
  {
    var n := |syms|;
    FixedOnStack(toks, c, syms, n - 1);
    FixedOnStack(toks, c, syms, n - 2);
    FixedOnStack(toks, c, syms, n - 3);
    FixedOnStack(toks, c, syms, n - 5);
    FixedOnStack(toks, c, syms, n - 7);
    FixedOnStack(toks, c, syms, n - 9);
    FixedOnStack(toks, c, syms, n - 10);
    PartsTake(syms, n - 10);
    ForParts(Parts(syms), item, expr, body);
  }

  lemma ForEffect(toks: seq<Token>, c: Cfg, item: string, expr: string, body: seq<Tmpl>)
    requires Below(c, 3) == Node(Ast(TemplateNode, "", AstAll(body))) && Below(c, 5) == Text(expr)
    requires Below(c, 7) == Text(item)
    ensures Effect(toks, c.(val := Below(c, 9)), 10) == Some(c.(val := Node(AstOf(For(item, expr, body)))))
  {
  }

  /** The for-block that the ten symbols make. */
  lemma ForSymbol(toks: seq<Token>, c: Cfg, syms: seq<Sym>) returns (t: Tmpl)
    requires Settled(toks, c, syms) && Top(c) == 24
    ensures |syms| >= 10 && t.For? && WellFormed(t)
    ensures Yields(syms) == Yields(syms[..|syms| - 10]) + Print(t)
    ensures Goto(c.states[|c.states| - 11], FOR_BLOCK) > 0
    ensures Effect(toks, c.(val := Below(c, 9)), 10) == Some(c.(val := Node(AstOf(t))))
  {
    var body := BodyTail(c, syms);
    var expr := HeadExpr(c, syms);
    var item := HeadItem(c, syms);
    ForYield(toks, c, syms, item, expr, body);
    t := For(item, expr, body);
    ForEffect(toks, c, item, expr, body);
  }

  /** Rule 10 */
  lemma ReduceFor(toks: seq<Token>, c: Cfg, syms: seq<Sym>)
    requires Settled(toks, c, syms) && Top(c) == 24
    ensures GoodTurn(toks, c, Step(toks, c))
  {
    RequiresWhich(24);
    var t := ForSymbol(toks, c, syms);
    var pend := Symbol(ForS(t));
    Reduced(toks, c, syms, 10, pend, Node(AstOf(t)));
  }

  /** Rule 1 opens the empty unit at the end of the input, or at a token no template starts with. */
  lemma OpenUnit(toks: seq<Token>, c: Cfg, syms: seq<Sym>)
    requires Scanned(toks) && Settled(toks, c, syms) && (Top(c) == 0 || Top(c) == 2) && c.token == UNDETERMINED
    requires Goto(Top(c), NextToken(toks, c).token) < 0
    ensures GoodTurn(toks, c, Step(toks, c))
  {
    var c1 := NextToken(toks, c);
    var d := c1.(token := UNIT, nextToken := c1.token, val := Root);
    UnitPending(toks, c, syms, d);
    TakeRule1(toks, c1);
    RequiresWhich(Top(c));
    PendingGood(toks, c, syms, Symbol(UnitS([])));
  }

  lemma TakeRule1(toks: seq<Token>, c: Cfg)
    requires |c.states| == |c.vals| && c.states != [] && c.token != UNDETERMINED && c.val == Null && c.nextVal == Null
    ensures Take(toks, c, -1) == Continue(c.(token := UNIT, nextToken := c.token, val := Root))
  {
    assert c.states[..|c.states| - 0] == c.states && c.vals[..|c.vals| - 0] == c.vals;
  }

  lemma UnitPending(toks: seq<Token>, c: Cfg, syms: seq<Sym>, d: Cfg)
    requires Scanned(toks) && Settled(toks, c, syms) && (Top(c) == 0 || Top(c) == 2) && c.token == UNDETERMINED
    requires var c1 := NextToken(toks, c); d == c1.(token := UNIT, nextToken := c1.token, val := Root)
    ensures Pending(toks, d, syms, Symbol(UnitS([]))) && c.pos < d.pos <= |toks| + 1
  {
    assert toks[..|toks|] == toks;
    assert Yields(syms) + Yield(UnitS([])) == Yields(syms);
    StackPop(c, syms, 0, d);
    assert syms[..|syms| - 0] == syms;
  }

  lemma StepRule2(toks: seq<Token>, c: Cfg)
    requires |c.states| == |c.vals| >= 3 && Top(c) == 10 && c.token != UNDETERMINED && c.val == Null
    requires c.nextVal == Null && Below(c, 1).Node?
    ensures Step(toks, c) == Continue(
      Cfg(c.states[..|c.states| - 2], c.vals[..|c.vals| - 2], UNIT, c.token, Below(c, 1), Null, c.pos,
          [Below(c, 1).node] + c.root))
  {
    RequiresWhich(10);
  }

  lemma UnitTail(c: Cfg, syms: seq<Sym>) returns (t: Tmpl, ts: seq<Tmpl>)
    requires StackOk(c, syms) && Top(c) == 10
    ensures |syms| >= 2 && syms[|syms| - 1].from == UnitS(ts) && WellFormed(t) && AllWellFormed(ts)
    ensures Below(c, 1) == Node(AstOf(t)) && Goto(c.states[|c.states| - 3], UNIT) > 0
    ensures Yields(syms) == Yields(syms[..|syms| - 2]) + PrintAll([t] + ts)
  {
    var n := |syms|;
    Back(c, syms, 0, 10);
    Back(c, syms, 1, 2);
    t, ts := syms[n - 2].from.t, syms[n - 1].from.ts;
    PartsTake(syms, n - 2);
    FlatTail2(Parts(syms));
    assert ([t] + ts)[1..] == ts;
  }

  lemma UnitUnwinds(toks: seq<Token>, c: Cfg, syms: seq<Sym>) returns (pend: Sym, d: Cfg)
    requires Settled(toks, c, syms) && Top(c) == 10
    ensures |syms| >= 2 && pend.from.UnitS? && Below(c, 1).Node?
    ensures d == Cfg(c.states[..|c.states| - 2], c.vals[..|c.vals| - 2], UNIT, c.token, Below(c, 1), Null, c.pos,
                     [Below(c, 1).node] + c.root)
    ensures Pending(toks, d, syms[..|syms| - 2], pend) && Weight(d) < Weight(c) && c.pos == d.pos <= |toks| + 1
  {
    var t, ts := UnitTail(c, syms);
    pend := Symbol(UnitS([t] + ts));
    assert ([t] + ts)[1..] == ts;
    d := Cfg(c.states[..|c.states| - 2], c.vals[..|c.vals| - 2], UNIT, c.token, Below(c, 1), Null, c.pos,
             [Below(c, 1).node] + c.root);
    StackPop(c, syms, 2, d);
  }

  /** Rule 2: the right recursion unwinds, prepending one template after the other to the root. */
  lemma CloseUnit(toks: seq<Token>, c: Cfg, syms: seq<Sym>)
    requires Settled(toks, c, syms) && Top(c) == 10
    ensures GoodTurn(toks, c, Step(toks, c))
  {
    hide GoodTurn;
    hide Pending;
    hide Step;
    hide Weight;
    hide Yields;
    var pend, d := UnitUnwinds(toks, c, syms);
    StepRule2(toks, c);
    PendingGood(toks, c, syms[..|syms| - 2], pend);
  }

  /** Under state 1 lies one unit and nothing else. */
  lemma OnlyUnit(c: Cfg, syms: seq<Sym>)
    requires StackOk(c, syms) && Top(c) == 1
    ensures |syms| == 1 && syms[0].from.UnitS? && SymOk(syms[0]) && Yields(syms) == syms[0].spells
  {
    Back(c, syms, 0, 1);
    assert |syms| > 1 ==> EntryOk(c, syms, |syms| - 2);
    FlatTail1(Parts(syms));
    assert Parts(syms)[..0] == [];
  }

  /** State 1 accepts at the end of the input. */
  lemma AtUnit(toks: seq<Token>, c: Cfg, syms: seq<Sym>)
    requires Settled(toks, c, syms) && Top(c) == 1
    ensures syms != [] && syms[|syms| - 1].from.UnitS?
    ensures var o := Step(toks, c);
      if c.token == EOF then
        var ts := syms[|syms| - 1].from.ts;
        o == Accept(c) && Derives(toks, ts) && c.root == AstAll(ts)
      else o == Abort && Action(1, c.token) == None
  {
    RequiresWhich(1);
    OnlyUnit(c, syms);
  }

  /** Every other state that needs a token either shifts the one it reads or gives up. */
  lemma ReadToken(toks: seq<Token>, c: Cfg, syms: seq<Sym>)
    requires Scanned(toks) && Settled(toks, c, syms) && Requires(Top(c)) && Top(c) != 0 && Top(c) != 1 && Top(c) != 2
    requires Top(c) <= 24
    ensures var o := Step(toks, c);
      if Action(Top(c), NextToken(toks, c).token) == None then o == Abort
      else o.Continue? && IsSettled(toks, o.cfg) && c.pos < o.cfg.pos <= |toks| + 1
  {
    RequiresWhich(Top(c));
    var c1 := NextToken(toks, c);
    if Goto(Top(c), c1.token) > 0 {
      assert c.pos < |toks|;
      ShiftSettled(toks, c, syms);
    }
  }

  lemma PendingTurn(toks: seq<Token>, c: Cfg, syms: seq<Sym>, pend: Sym)
    requires Pending(toks, c, syms, pend)
    ensures GoodTurn(toks, c, Step(toks, c))
  {
    ShiftPending(toks, c, syms, pend);
    var d := Step(toks, c).cfg;
    assert IsSettled(toks, d);
    Incoming(Top(c), Kind(pend), Top(d));
  }

  lemma TopInRange(c: Cfg, syms: seq<Sym>)
    requires StackOk(c, syms)
    ensures Top(c) <= 24
  {
    if |syms| > 0 { assert EntryOk(c, syms, |syms| - 1); }
  }

  lemma ReducingTurn(toks: seq<Token>, c: Cfg, syms: seq<Sym>)
    requires Settled(toks, c, syms) && !Requires(Top(c)) && Top(c) <= 24
    ensures GoodTurn(toks, c, Step(toks, c))
  {
    hide GoodTurn;
    hide Step;
    RequiresWhich(Top(c));
    match Top(c)
    case 3 => RaiseBlock(toks, c, syms);
    case 4 => RaiseRaw(toks, c, syms);
    case 5 => RaiseSubst(toks, c, syms);
    case 6 => RaiseFor(toks, c, syms);
    case 10 => CloseUnit(toks, c, syms);
    case 14 => ReduceSubst(toks, c, syms);
    case 20 => RaiseTemplate(toks, c, syms);
    case 22 => ReduceList(toks, c, syms);
    case 24 => ReduceFor(toks, c, syms);
    case _ => ReduceLeaf(toks, c, syms);
  }

  lemma SettledTurn(toks: seq<Token>, c: Cfg, syms: seq<Sym>)
    requires Scanned(toks) && Settled(toks, c, syms)
    ensures GoodTurn(toks, c, Step(toks, c))
  {
    RequiresWhich(Top(c));
    TopInRange(c, syms);
    if !Requires(Top(c)) {
      ReducingTurn(toks, c, syms);
    } else if Top(c) == 1 {
      AtUnit(toks, c, syms);
    } else if Top(c) == 0 || Top(c) == 2 {
      if Goto(Top(c), NextToken(toks, c).token) > 0 {
        ShiftSettled(toks, c, syms);
        assert IsSettled(toks, Step(toks, c).cfg);
      } else {
        OpenUnit(toks, c, syms);
      }
    } else {
      ReadToken(toks, c, syms);
    }
  }

  /** The first `n` tokens derive from the grammar, and these trees are those of the templates. */
  ghost predicate HoldsPrefix(toks: seq<Token>, root: seq<Ast>, n: nat, ts: seq<Tmpl>) {
    n <= |toks| && Derives(toks[..n], ts) && root == AstAll(ts)
  }

  lemma NothingHeld(toks: seq<Token>)
    ensures HoldsPrefix(toks, [], 0, [])
  {
    assert Normals(toks[..0]) == PrintAll([]);
  }

  lemma UnitHeld(toks: seq<Token>, c: Cfg, syms: seq<Sym>)
    requires Settled(toks, c, syms) && Top(c) == 1
    ensures HoldsPrefix(toks, c.root, if c.token == EOF then |toks| else c.pos - 1, syms[|syms| - 1].from.ts)
  {
    OnlyUnit(c, syms);
    assert toks[..|toks|] == toks;
  }

  lemma UnwindingGoesOn(toks: seq<Token>, c: Cfg, syms: seq<Sym>)
    requires Settled(toks, c, syms)
    ensures Top(c) == 10 ==> Step(toks, c).Continue?
  {
    if Top(c) == 10 {
      var pend, d := UnitUnwinds(toks, c, syms);
      StepRule2(toks, c);
    }
  }

  /** Where the loop ends, the root holds the templates of a beginning of the input that derives from the grammar,
      also if the input is rejected. */
  lemma RootIsPrefix(toks: seq<Token>, c: Cfg)
    requires Scanned(toks) && Invariant(toks, c)
    requires |c.states| == |c.vals| && c.states != [] && !Step(toks, c).Continue?
    ensures exists n: nat, ts :: HoldsPrefix(toks, c.root, n, ts)
  {
    if IsSettled(toks, c) {
      var syms: seq<Sym> :| Settled(toks, c, syms);
      UnwindingGoesOn(toks, c, syms);
      if Top(c) == 1 {
        UnitHeld(toks, c, syms);
      } else {
        NothingHeld(toks);
      }
    } else {
      var syms, pend :| Pending(toks, c, syms, pend);
      ShiftPending(toks, c, syms, pend);
      assert false;
    }
  }

  lemma TurnKeeps(toks: seq<Token>, c: Cfg)
    requires Scanned(toks) && Invariant(toks, c)
    ensures |c.states| == |c.vals| && c.states != [] && GoodTurn(toks, c, Step(toks, c))
  {
    if IsSettled(toks, c) {
      var syms: seq<Sym> :| Settled(toks, c, syms);
      SettledTurn(toks, c, syms);
    } else {
      var syms, pend :| Pending(toks, c, syms, pend);
      PendingTurn(toks, c, syms, pend);
    }
  }

  lemma InitHolds(toks: seq<Token>)
    ensures Invariant(toks, Init())
  {
    assert Settled(toks, Init(), []);
  }

  /** Soundness: in every configuration the parser can get to it does not crash, and if it accepts there, the
      tokens derive from the grammar and the root's children are the derived templates in source order. */
  lemma Soundness(toks: seq<Token>, c: Cfg)
    requires Scanned(toks) && Reaches(Turns(toks), Init(), c)
    ensures |c.states| == |c.vals| && c.states != [] && Step(toks, c) != Crash
    ensures Step(toks, c) == Abort ==> Action(Top(c), Prepared(toks, c).token) == None
    ensures Step(toks, c).Accept? ==> exists ts :: Derives(toks, ts) && Step(toks, c).cfg.root == AstAll(ts)
  {
    InitHolds(toks);
    var n: nat :| Iterate(Turns(toks), Init(), n) == Some(c);
    var inv := (x: Cfg) => Invariant(toks, x);
    forall x | inv(x) && Turns(toks)(x).Some? ensures inv(Turns(toks)(x).value) {
      TurnKeeps(toks, x);
    }
    Keeps(Turns(toks), inv, Init(), n);
    TurnKeeps(toks, c);
  }
}
