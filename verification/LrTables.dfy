/** The parser's constant tables: symbols, productions, and per state its type and transitions. */
module LrTables {
  import opened Wrappers

  const EOF: int := -1
  const UNDETERMINED: int := -2

  // terminals
  const BLOCK_START: int := 257
  const BLOCK_END: int := 258
  const VAR_START: int := 259
  const VAR_END: int := 260
  const FOR: int := 261
  const VAR: int := 262
  const IN: int := 263
  const ENDFOR: int := 264
  const RAW_TEXT: int := 265

  // nonterminals
  const UNIT: int := 274
  const TEMPLATE: int := 275
  const SUBST_EXPR: int := 276
  const TEMPLATE_LIST: int := 277
  const BLOCK: int := 278
  const FOR_BLOCK: int := 279
  const VARIABLE: int := 280
  const RAW: int := 281

  /** The types a state may have: every combination of error item, required token and default reduction. */
  datatype StateType = NORMAL | ERR_ITEM | REQ_TOKEN | ERR_REQ | DEF_RED | ERR_DEF | REQ_DEF | ERR_REQ_DEF

  const STATES: nat := 25

  datatype SR = SR(token: int, action: int)

  /** The left-hand side and the length of production `rule`. */
  function Production(rule: int): (p: (int, nat)) {
    match rule
    case 1 => (UNIT, 0)
    case 2 => (UNIT, 2)
    case 3 => (TEMPLATE, 1)
    case 4 => (TEMPLATE, 1)
    case 5 => (TEMPLATE, 1)
    case 6 => (SUBST_EXPR, 3)
    case 7 => (TEMPLATE_LIST, 1)
    case 8 => (TEMPLATE_LIST, 2)
    case 9 => (BLOCK, 1)
    case 10 => (FOR_BLOCK, 10)
    case 11 => (VARIABLE, 1)
    case 12 => (RAW, 1)
    case _ => (0, 0)
  }

  function TypeOf(state: nat): StateType {
    if state == 0 || state == 2 then REQ_DEF
    else if 3 <= state <= 7 || state in {10, 12, 14, 20, 22, 24} then DEF_RED
    else REQ_TOKEN
  }

  /** The entries of a state between the first and the last one. */
  function Entries(state: nat): seq<SR> {
    match state
    case 0 => [SR(UNIT, 1), SR(TEMPLATE, 2), SR(BLOCK, 3), SR(RAW, 4), SR(SUBST_EXPR, 5), SR(FOR_BLOCK, 6),
               SR(RAW_TEXT, 7), SR(VAR_START, 8), SR(BLOCK_START, 9)]
    case 1 => [SR(EOF, 0)]
    case 2 => [SR(UNIT, 10), SR(TEMPLATE, 2), SR(BLOCK, 3), SR(RAW, 4), SR(SUBST_EXPR, 5), SR(FOR_BLOCK, 6),
               SR(RAW_TEXT, 7), SR(VAR_START, 8), SR(BLOCK_START, 9)]
    case 8 => [SR(VARIABLE, 11), SR(VAR, 12)]
    case 9 => [SR(FOR, 13)]
    case 11 => [SR(VAR_END, 14)]
    case 13 => [SR(VARIABLE, 15), SR(VAR, 12)]
    case 15 => [SR(IN, 16)]
    case 16 => [SR(VARIABLE, 17), SR(VAR, 12)]
    case 17 => [SR(BLOCK_END, 18)]
    case 18 => [SR(TEMPLATE_LIST, 19), SR(TEMPLATE, 20), SR(BLOCK, 3), SR(RAW, 4), SR(SUBST_EXPR, 5), SR(FOR_BLOCK, 6),
                SR(RAW_TEXT, 7), SR(VAR_START, 8), SR(BLOCK_START, 9)]
    case 19 => [SR(BLOCK_START, 21), SR(TEMPLATE, 22), SR(BLOCK, 3), SR(RAW, 4), SR(SUBST_EXPR, 5), SR(FOR_BLOCK, 6),
                SR(RAW_TEXT, 7), SR(VAR_START, 8)]
    case 21 => [SR(ENDFOR, 23), SR(FOR, 13)]
    case 23 => [SR(BLOCK_END, 24)]
    case _ => []
  }

  /** The action of the last entry: the default reduction, or 0 when there is none. */
  function LastAction(state: nat): int {
    match state
    case 0 => -1
    case 2 => -1
    case 3 => -3
    case 4 => -4
    case 5 => -5
    case 6 => -9
    case 7 => -12
    case 10 => -2
    case 12 => -11
    case 14 => -6
    case 20 => -7
    case 22 => -8
    case 24 => -10
    case _ => 0
  }

  /** The states a shift on `token` leads to, read off the tables as one relation; -1 where there is no such entry. */
  function Goto(state: nat, token: int): int {
    if state == 8 then (if token == VARIABLE then 11 else if token == VAR then 12 else -1)
    else if state == 9 then (if token == FOR then 13 else -1)
    else if state == 11 then (if token == VAR_END then 14 else -1)
    else if state == 13 then (if token == VARIABLE then 15 else if token == VAR then 12 else -1)
    else if state == 15 then (if token == IN then 16 else -1)
    else if state == 16 then (if token == VARIABLE then 17 else if token == VAR then 12 else -1)
    else if state == 17 then (if token == BLOCK_END then 18 else -1)
    else if state == 21 then (if token == ENDFOR then 23 else if token == FOR then 13 else -1)
    else if state == 23 then (if token == BLOCK_END then 24 else -1)
    else if state == 0 || state == 2 || state == 18 || state == 19 then
      (if token == BLOCK then 3 else if token == RAW then 4 else if token == SUBST_EXPR then 5
       else if token == FOR_BLOCK then 6 else if token == RAW_TEXT then 7 else if token == VAR_START then 8
       else if token == BLOCK_START then (if state == 19 then 21 else 9)
       else if token == TEMPLATE then (if state == 18 then 20 else if state == 19 then 22 else 2)
       else if token == UNIT && state == 0 then 1
       else if token == UNIT && state == 2 then 10
       else if token == TEMPLATE_LIST && state == 18 then 19
       else -1)
    else -1
  }

  /** What the search in a state's table yields: an entry's action, else the default reduction, else nothing. */
  function Action(state: nat, token: int): Option<int> {
    if Goto(state, token) > 0 then Some(Goto(state, token))
    else if state == 1 && token == EOF then Some(0)
    else if LastAction(state) < 0 then Some(LastAction(state))
    else None
  }

  predicate Requires(state: nat) {
    TypeOf(state).REQ_TOKEN? || TypeOf(state).ERR_REQ? || TypeOf(state).REQ_DEF? || TypeOf(state).ERR_REQ_DEF?
  }

  predicate HasErrorItem(state: nat) {
    TypeOf(state).ERR_ITEM? || TypeOf(state).ERR_REQ? || TypeOf(state).ERR_DEF? || TypeOf(state).ERR_REQ_DEF?
  }

  /** Only the states in which the parser reads a token before it decides. */
  lemma RequiresWhich(state: nat)
    ensures Requires(state) <==> state !in {3, 4, 5, 6, 7, 10, 12, 14, 20, 22, 24}
    ensures !HasErrorItem(state)
  {
  }

  /** The one symbol that leads to a state. */
  function Accessing(to: nat): int {
    match to
    case 1 => UNIT
    case 2 => TEMPLATE
    case 3 => BLOCK
    case 4 => RAW
    case 5 => SUBST_EXPR
    case 6 => FOR_BLOCK
    case 7 => RAW_TEXT
    case 8 => VAR_START
    case 9 => BLOCK_START
    case 10 => UNIT
    case 11 => VARIABLE
    case 12 => VAR
    case 13 => FOR
    case 14 => VAR_END
    case 15 => VARIABLE
    case 16 => IN
    case 17 => VARIABLE
    case 18 => BLOCK_END
    case 19 => TEMPLATE_LIST
    case 20 => TEMPLATE
    case 21 => BLOCK_START
    case 22 => TEMPLATE
    case 23 => ENDFOR
    case _ => BLOCK_END
  }

  /** The states a state can be reached from, as far as there is only one kind of them. */
  predicate CanPrecede(from: nat, to: nat) {
    match to
    case 1 => from == 0
    case 2 => from == 0 || from == 2
    case 9 => from == 0 || from == 2 || from == 18
    case 10 => from == 2
    case 11 => from == 8
    case 12 => from == 8 || from == 13 || from == 16
    case 13 => from == 9 || from == 21
    case 14 => from == 11
    case 15 => from == 13
    case 16 => from == 15
    case 17 => from == 16
    case 18 => from == 17
    case 19 => from == 18
    case 20 => from == 18
    case 21 => from == 19
    case 22 => from == 19
    case 23 => from == 21
    case 24 => from == 23
    case _ => from == 0 || from == 2 || from == 18 || from == 19
  }

  lemma Incoming(from: nat, token: int, to: nat)
    requires Goto(from, token) == to && 0 < to
    ensures token == Accessing(to) && CanPrecede(from, to)
  {
  }

  /** The linear search over a state's table. */
  method Lookup(state: nat, token: int) returns (r: Option<int>)
    requires state < STATES
    ensures r == Action(state, token)
  {
    var entries := Entries(state);
    var i := 0;
    while i < |entries| && entries[i].token != token
      invariant 0 <= i <= |entries|
      invariant forall j :: 0 <= j < i ==> entries[j].token != token
    {
      i := i + 1;
    }
    SearchIs(state, token, i);
    if i == |entries| {
      if LastAction(state) < 0 {
        return Some(LastAction(state));
      }
      return None;
    }
    return Some(entries[i].action);
  }

  lemma SearchIs(state: nat, token: int, i: nat)
    requires state < STATES && i <= |Entries(state)|
    requires forall j :: 0 <= j < i ==> Entries(state)[j].token != token
    requires i < |Entries(state)| ==> Entries(state)[i].token == token
    ensures i < |Entries(state)| ==> Action(state, token) == Some(Entries(state)[i].action)
    ensures i == |Entries(state)| ==>
      Action(state, token) == if LastAction(state) < 0 then Some(LastAction(state)) else None
  {
    var e := Entries(state);
    assert |e| > 0 && i > 0 ==> e[0].token != token;
    assert |e| > 1 && i > 1 ==> e[1].token != token;
    assert |e| > 2 && i > 2 ==> e[2].token != token;
    assert |e| > 3 && i > 3 ==> e[3].token != token;
    assert |e| > 4 && i > 4 ==> e[4].token != token;
    assert |e| > 5 && i > 5 ==> e[5].token != token;
    assert |e| > 6 && i > 6 ==> e[6].token != token;
    assert |e| > 7 && i > 7 ==> e[7].token != token;
    assert |e| > 8 && i > 8 ==> e[8].token != token;
  }
}
