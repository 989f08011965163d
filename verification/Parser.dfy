/** The parser as the class that runs the loop, and the theorem about what it recognises. */
module Parser {
  import opened Wrappers
  import opened Runs
  import opened LrTables
  import opened ParserModel
  import opened ParserSoundness
  import C = ParserCompleteness

  /** Wherever the loop ends: it accepts exactly the tokens the grammar derives, and then the root's children are
      the trees of the derived templates, whichever derivation one looks at. */
  lemma Recognises(toks: seq<Token>, c: Cfg)
    requires Scanned(toks) && Reaches(Turns(toks), Init(), c)
    requires |c.states| == |c.vals| && c.states != [] && !Step(toks, c).Continue?
    ensures Step(toks, c).Accept? <==> exists ts :: Derives(toks, ts)
    ensures forall ts :: Derives(toks, ts) ==> Step(toks, c).Accept? && Step(toks, c).cfg.root == AstAll(ts)
  {
    Soundness(toks, c);
    forall ts | Derives(toks, ts) ensures Step(toks, c).Accept? && Step(toks, c).cfg.root == AstAll(ts) {
      var d := C.Completeness(toks, ts);
      assert Turns(toks)(c) == None && Turns(toks)(d) == None;
      StopsOnce(Turns(toks), Init(), c, d);
    }
  }

  lemma {:induction false} AstInjective(t: Tmpl, u: Tmpl)
    requires AstOf(t) == AstOf(u)
    ensures t == u
    decreases t, 1
  {
    if t.For? {
      assert AstOf(t).childs[0] == AstOf(u).childs[0] && AstOf(t).childs[1] == AstOf(u).childs[1]
        && AstOf(t).childs[2] == AstOf(u).childs[2];
      AstAllInjective(t.body, u.body);
    } else if t.Subst? {
      assert AstOf(t).childs[0] == AstOf(u).childs[0];
    }
  }

  lemma {:induction false} AstAllInjective(ts: seq<Tmpl>, us: seq<Tmpl>)
    requires AstAll(ts) == AstAll(us)
    ensures ts == us
    decreases ts, 0
  {
    assert |ts| == |us|;
    if ts != [] {
      assert AstAll(ts)[0] == AstAll(us)[0] && AstAll(ts)[1..] == AstAll(us)[1..];
      AstInjective(ts[0], us[0]);
      AstAllInjective(ts[1..], us[1..]);
      assert ts == [ts[0]] + ts[1..] && us == [us[0]] + us[1..];
    }
  }

  /** The grammar is unambiguous: a token list is the print of at most one list of templates. */
  lemma Unambiguous(toks: seq<Token>, ts: seq<Tmpl>, us: seq<Tmpl>)
    requires Scanned(toks) && Derives(toks, ts) && Derives(toks, us)
    ensures ts == us
  {
    var c := C.Completeness(toks, ts);
    var d := C.Completeness(toks, us);
    assert Turns(toks)(c) == None && Turns(toks)(d) == None;
    StopsOnce(Turns(toks), Init(), c, d);
    AstAllInjective(ts, us);
  }

  /** What parsing has come to. */
  ghost predicate Ended(toks: seq<Token>, root: seq<Ast>, accepted: bool) {
    && (accepted <==> exists ts :: Derives(toks, ts))
    && (forall ts :: Derives(toks, ts) ==> root == AstAll(ts))
    && exists n: nat, ts :: HoldsPrefix(toks, root, n, ts)
  }

  class Parser {
    const toks: seq<Token>
    var stateStack: seq<nat>
    var valueStack: seq<Val>
    var token: int
    var nextToken: int
    var val: Val
    var nextVal: Val
    var pos: nat
    var rootChilds: seq<Ast>

    function Value(): Cfg
      reads this
    {
      Cfg(stateStack, valueStack, token, nextToken, val, nextVal, pos, rootChilds)
    }

    constructor (toks: seq<Token>)
      ensures this.toks == toks && Value() == Init().(states := [], vals := [])
    {
      this.toks := toks;
      stateStack, valueStack := [], [];
      token, nextToken, val, nextVal := UNDETERMINED, UNDETERMINED, Null, Null;
      pos, rootChilds := 0, [];
    }

    method Push(state: nat)
      modifies this`stateStack, this`valueStack
      ensures Value() == ParserModel.Push(old(Value()), state)
    {
      stateStack := stateStack + [state];
      valueStack := valueStack + [val];
    }

    method PopToken()
      modifies this`token, this`nextToken, this`val, this`nextVal
      ensures Value() == ParserModel.PopToken(old(Value()))
    {
      token := nextToken;
      val := nextVal;
      nextVal := Null;
      nextToken := UNDETERMINED;
    }

    method PushToken(t: int)
      modifies this`token, this`nextToken, this`nextVal
      ensures Value() == ParserModel.PushToken(old(Value()), t)
    {
      nextToken := token;
      nextVal := val;
      token := t;
    }

    /** False when the stack is too short: the original aborts there. */
    method Pop(count: nat) returns (ok: bool)
      requires |stateStack| == |valueStack| && stateStack != []
      modifies this`stateStack, this`valueStack
      ensures ok <==> count < |old(stateStack)|
      ensures Value() == if ok then old(Value()).(states := old(stateStack)[..|old(stateStack)| - count],
                                                  vals := old(valueStack)[..|old(valueStack)| - count])
                         else old(Value())
    {
      if |stateStack| - 1 < count {
        return false;
      }
      stateStack := stateStack[..|stateStack| - count];
      valueStack := valueStack[..|valueStack| - count];
      ok := true;
    }

    method Lex()
      modifies this`token, this`pos
      ensures Value() == if old(pos) < |toks| then old(Value()).(token := toks[old(pos)].kind, pos := old(pos) + 1)
                         else old(Value()).(token := EOF, pos := |toks| + 1)
    {
      if pos < |toks| {
        token := toks[pos].kind;
        pos := pos + 1;
      } else {
        token := EOF;
        pos := |toks| + 1;
      }
    }

    method NextToken()
      modifies this`token, this`nextToken, this`val, this`nextVal, this`pos
      ensures Value() == ParserModel.NextToken(toks, old(Value()))
    {
      if token != UNDETERMINED {
        return;
      }
      if nextToken != UNDETERMINED {
        PopToken();
      } else {
        Lex();
      }
    }

    /** Saves the token that was read ahead, presets the value, and runs the rule's action. False on a crash. */
    method ExecuteAction(rule: int) returns (ok: bool)
      modifies this`token, this`nextToken, this`val, this`nextVal, this`rootChilds
      ensures ok <==> ParserModel.ExecuteAction(toks, old(Value()), rule).Some?
      ensures ok ==> Value() == ParserModel.ExecuteAction(toks, old(Value()), rule).value
    {
      if token != UNDETERMINED {
        PushToken(token);
      }
      var size := Production(rule).1;
      if |valueStack| < size {
        return false;
      }
      if size > 0 {
        val := Below(Value(), size - 1);
      }
      var after := Effect(toks, Value(), rule);
      if after.None? {
        return false;
      }
      val, rootChilds := after.value.val, after.value.root;
      ok := true;
    }

    /** Pops until a state with an error item turns up. None has one, so this always ends in an abort. */
    method ErrorRecovery()
      requires |stateStack| == |valueStack| && stateStack != []
      modifies this`stateStack, this`valueStack
      ensures |stateStack| == 1 && rootChilds == old(rootChilds)
    {
      var aborted := false;
      while !aborted
        invariant |stateStack| == |valueStack| && stateStack != [] && (aborted ==> |stateStack| == 1)
        decreases |stateStack|, if aborted then 0 else 1
      {
        RequiresWhich(stateStack[|stateStack| - 1]);
        assert !HasErrorItem(stateStack[|stateStack| - 1]);
        var popped := Pop(1);
        aborted := !popped;
      }
    }

    /** Executes the rule's action and reduces by it. False when the stack is too short. */
    method ReduceBy(rule: int) returns (ok: bool)
      requires |stateStack| == |valueStack| && stateStack != [] && rule > 0
      requires ParserModel.ExecuteAction(toks, Value(), rule).Some?
      modifies this
      ensures match Take(toks, old(Value()), -rule)
              case Continue(d) => ok && Value() == d
              case _ => !ok
    {
      var executed := ExecuteAction(rule);
      token := Production(rule).0;
      ok := Pop(Production(rule).1);
    }

    /** One turn of the loop. None: go on; otherwise parsing ends, accepting or not. */
    method Turn() returns (end: Option<bool>)
      requires |stateStack| == |valueStack| && stateStack != [] && stateStack[|stateStack| - 1] < STATES
      requires Step(toks, Value()) != Crash
      modifies this
      ensures match Step(toks, old(Value()))
              case Continue(d) => end == None && Value() == d
              case Accept(d) => end == Some(true) && Value() == d
              case _ => end == Some(false)
      ensures Action(Top(old(Value())), Prepared(toks, old(Value())).token) == None ==> rootChilds == old(rootChilds)
    {
      var state := stateStack[|stateStack| - 1];
      if Requires(state) {
        NextToken();
      }
      assert Value() == Prepared(toks, old(Value()));
      var found := Lookup(state, token);
      if found.None? {
        ErrorRecovery();
        return Some(false);
      }
      var action := found.value;
      assert Step(toks, old(Value())) == Take(toks, Value(), action);
      if action > 0 {
        Push(action);
        PopToken();
        return None;
      }
      if action == 0 {
        return Some(true);
      }
      var ok := ReduceBy(-action);
      return if ok then None else Some(false);
    }

    /** Parses the scanner's tokens. */
    method Parse() returns (accepted: bool)
      requires Scanned(toks) && Value() == Init().(states := [], vals := [])
      modifies this
      ensures accepted <==> exists ts :: Derives(toks, ts)
      ensures forall ts :: Derives(toks, ts) ==> rootChilds == AstAll(ts)
      ensures exists n: nat, ts :: HoldsPrefix(toks, rootChilds, n, ts)
    {
      Push(0);
      token, nextToken := UNDETERMINED, UNDETERMINED;
      assert Value() == Init();
      InitHolds(toks);
      ReachesSelf(Turns(toks), Init());
      hide Step;
      hide Invariant;
      hide Ended;
      var end: Option<bool> := None;
      while end.None?
        invariant end.None? ==> |stateStack| == |valueStack| && stateStack != [] && pos <= |toks| + 1
        invariant end.None? ==> Invariant(toks, Value()) && Reaches(Turns(toks), Init(), Value())
        invariant end.Some? ==> Ended(toks, rootChilds, end.value)
        decreases end.None?, |toks| + 1 - pos, if end.None? then Weight(Value()) else 0
      {
        TurnFacts(toks, Value());
        end := Turn();
      }
      accepted := end.value;
      EndMeans(toks, rootChilds, accepted);
    }

    static lemma EndMeans(toks: seq<Token>, root: seq<Ast>, accepted: bool)
      requires Ended(toks, root, accepted)
      ensures accepted <==> exists ts :: Derives(toks, ts)
      ensures forall ts :: Derives(toks, ts) ==> root == AstAll(ts)
      ensures exists n: nat, ts :: HoldsPrefix(toks, root, n, ts)
    {
    }

    static lemma TurnFacts(toks: seq<Token>, c: Cfg)
      requires Scanned(toks) && Invariant(toks, c) && Reaches(Turns(toks), Init(), c)
      ensures |c.states| == |c.vals| && c.states != [] && c.states[|c.states| - 1] < STATES
      ensures match Step(toks, c)
              case Continue(d) =>
                && Invariant(toks, d) && Reaches(Turns(toks), Init(), d) && |d.states| == |d.vals| && d.states != []
                && d.pos <= |toks| + 1 && (d.pos > c.pos || (d.pos == c.pos && Weight(d) < Weight(c)))
              case Accept(d) => Ended(toks, d.root, true)
              case Abort => Ended(toks, c.root, false) && Action(Top(c), Prepared(toks, c).token) == None
              case Crash => false
    {
      TurnKeeps(toks, c);
      TopInRangeOf(toks, c);
      if Step(toks, c).Continue? {
        ReachesStep(Turns(toks), c, Step(toks, c).cfg);
        ReachesTrans(Turns(toks), Init(), c, Step(toks, c).cfg);
      } else {
        Recognises(toks, c);
        RootIsPrefix(toks, c);
      }
    }

    static lemma TopInRangeOf(toks: seq<Token>, c: Cfg)
      requires Invariant(toks, c) && c.states != []
      ensures c.states[|c.states| - 1] < STATES
    {
      if IsSettled(toks, c) {
        var syms :| Settled(toks, c, syms);
        TopInRange(c, syms);
      } else {
        var syms, pend :| Pending(toks, c, syms, pend);
        TopInRange(c, syms);
      }
    }
  }
}
