/** What rendering writes, in terms of the variables alone: for a loop, the variable of every pass. */
module TemplateLaws {
  import opened Wrappers
  import opened Sequences
  import opened LrTables
  import opened ParserModel
  import opened ParserSoundness
  import opened Rendering

  // ---- names

  predicate NoDot(s: string) {
    '.' !in s
  }

  /** The name is the item itself or one of its fields. */
  predicate Names(item: string, name: string) {
    name == item || item + "." <= name
  }

  lemma FirstDotIs(item: string, field: string)
    requires NoDot(item)
    ensures FirstDot(item) == |item| && FirstDot(item + "." + field) == |item|
  {
    var name := item + "." + field;
    var (i, j) := (FirstDot(item), FirstDot(name));
    assert name[|item|] == '.' && forall k :: 0 <= k < |item| ==> name[k] == item[k];
    assert forall k :: 0 <= k < j ==> name[k] == name[..j][k];
  }

  /** A bound item stands for its path, and a field of it for that field of its path. */
  lemma Bound(item: string, field: string, context: Context)
    requires NoDot(item) && item in context
    ensures Translate(item, context) == context[item]
    ensures Translate(item + "." + field, context) == context[item] + "." + field
  {
    FirstDotIs(item, field);
    var name := item + "." + field;
    assert name[..|item|] == item && name[|item| + 1..] == field;
  }

  /** A name that names nothing bound stands for itself. */
  lemma Unbound(name: string, context: Context)
    requires forall k :: k in context ==> NoDot(k) && !Names(k, name)
    ensures Translate(name, context) == name
  {
    var i := FirstDot(name);
    var k := name[..i];
    assert i < |name| ==> k + "." == name[..i + 1];
    assert i == |name| ==> k == name;
  }

  lemma UnderRoot(path: string, name: string)
    ensures "root." + (path + "." + name) == "root." + path + "." + name
  {
  }

  // ---- passes

  /** No names but `keys` are bound, and those of `kept` are bound to what they are bound to there. */
  ghost predicate Within(context: Context, keys: set<string>, kept: Context) {
    context.Keys <= keys && forall k :: k in kept ==> k in context && context[k] == kept[k]
  }

  /** With its item bound to pass `i`, the body writes `texts[i]`, and the context stays within bounds. */
  ghost predicate Writes(vars: Vars, body: seq<Tmpl>, item: string, path: string, keys: set<string>, kept: Context,
                         texts: seq<string>)
  {
    forall i: nat, context: Context ::
      i < |texts| && Within(context, keys, kept) && item in context && context[item] == path + "." + Decimal(i)
      ==> var r := FlowAll(vars, body, context); r.0 == texts[i] && Within(r.1, keys, kept)
  }

  lemma FlattenFirst(first: string, rest: seq<string>)
    ensures Flatten([first] + rest) == first + Flatten(rest)
  {
    FlattenSplit([first], rest);
    FlattenSnoc([], first);
    assert [] + [first] == [first] && Flatten<char>([]) + first == first;
  }

  /** One pass, whatever comes after it. */
  lemma OnePass(vars: Vars, body: seq<Tmpl>, path: string, item: string, idx: nat, context: Context, keys: set<string>,
                kept: Context, texts: seq<string>)
    requires Within(context, keys, kept) && item in keys && item !in kept && idx < |texts|
    requires Writes(vars, body, item, path, keys, kept, texts)
    ensures var r := FlowAll(vars, body, context[item := path + "." + Decimal(idx)]);
      r.0 == texts[idx] && Within(r.1, keys, kept)
  {
    hide FlowAll;
    assert Within(context[item := path + "." + Decimal(idx)], keys, kept);
  }

  lemma {:induction false} Passes(vars: Vars, body: seq<Tmpl>, path: string, item: string, idx: nat, context: Context,
                                  keys: set<string>, kept: Context, texts: seq<string>)
    requires idx <= |texts| && Within(context, keys, kept) && item in keys && item !in kept
    requires Writes(vars, body, item, path, keys, kept, texts)
    ensures var r := FlowLoop(vars, body, path, item, idx, |texts|, context);
      r.0 == Flatten(texts[idx..]) && Within(r.1, keys, kept)
    decreases |texts| - idx
  {
    hide Writes;
    hide Within;
    hide FlowAll;
    if idx < |texts| {
      OnePass(vars, body, path, item, idx, context, keys, kept, texts);
      var bound := context[item := path + "." + Decimal(idx)];
      Passes(vars, body, path, item, idx + 1, FlowAll(vars, body, bound).1, keys, kept, texts);
      FlattenFirst(texts[idx], texts[idx + 1..]);
      assert [texts[idx]] + texts[idx + 1..] == texts[idx..];
    }
  }

  lemma FlowOne(vars: Vars, t: Tmpl, context: Context)
    ensures FlowAll(vars, [t], context) == Flow(vars, t, context)
  {
    assert [t][1..] == [];
    var r := Flow(vars, t, context);
    assert FlowAll(vars, [], r.1) == ("", r.1);
    assert r.0 + "" == r.0;
  }

  /** A loop over a list whose path is known: one text per element. */
  lemma LoopWrites(vars: Vars, item: string, expr: string, body: seq<Tmpl>, path: string, context: Context,
                   keys: set<string>, kept: Context, texts: seq<string>)
    requires Translate(expr, context) == path && |texts| == vars.size("root." + path)
    requires Within(context, keys, kept) && item in keys && item !in kept
    requires Writes(vars, body, item, path, keys, kept, texts)
    ensures var r := FlowAll(vars, [For(item, expr, body)], context);
      r.0 == Flatten(texts) && Within(r.1, keys, kept)
  {
    hide Writes;
    hide Within;
    hide Translate;
    FlowOne(vars, For(item, expr, body), context);
    Passes(vars, body, path, item, 0, context, keys, kept, texts);
    assert texts[0..] == texts;
  }

  /** A loop at the top of a file. */
  lemma TopLoop(vars: Vars, item: string, expr: string, body: seq<Tmpl>, keys: set<string>, texts: seq<string>)
    requires AllWellFormed(body) && body != [] && item in keys && |texts| == vars.size("root." + expr)
    requires Writes(vars, body, item, expr, keys, map[], texts)
    ensures AllWellFormed([For(item, expr, body)]) && Rendered(vars, [For(item, expr, body)]) == Flatten(texts)
  {
    hide Writes;
    var none: Context := map[];
    Unbound(expr, none);
    RenderedIsFlow(vars, [For(item, expr, body)]);
    LoopWrites(vars, item, expr, body, expr, none, keys, none, texts);
  }

  // ---- the laws

  /** Outside loops every name is looked up under the root as it is. */
  lemma WritesVariable(vars: Vars, before: string, name: string, after: string)
    ensures AllWellFormed([Plain(before), Subst(name), Plain(after)])
    ensures Rendered(vars, [Plain(before), Subst(name), Plain(after)]) == before + vars.get("root." + name) + after
  {
    var ts := [Plain(before), Subst(name), Plain(after)];
    var none: Context := map[];
    RenderedIsFlow(vars, ts);
    Unbound(name, none);
    assert ts[1..] == [Subst(name), Plain(after)] && ts[1..][1..] == [Plain(after)];
    FlowOne(vars, Plain(after), none);
    var value := vars.get("root." + name);
    assert FlowAll(vars, ts[1..], none).0 == value + after;
    Assoc(before, value, after);
  }

  /** In a loop, the item is the element of the pass: text `i` is what the variables hold at its path. */
  lemma WritesItem(vars: Vars, item: string, expr: string, texts: seq<string>)
    requires NoDot(item) && |texts| == vars.size("root." + expr)
    requires forall i :: 0 <= i < |texts| ==> texts[i] == vars.get("root." + expr + "." + Decimal(i))
    ensures AllWellFormed([For(item, expr, [Subst(item)])])
    ensures Rendered(vars, [For(item, expr, [Subst(item)])]) == Flatten(texts)
  {
    forall i: nat, c: Context | i < |texts| && Within(c, {item}, map[]) && item in c && c[item] == expr + "."
      + Decimal(i)
      ensures var r := FlowAll(vars, [Subst(item)], c); r.0 == texts[i] && Within(r.1, {item}, map[])
    {
      FlowOne(vars, Subst(item), c);
      Bound(item, "", c);
      UnderRoot(expr, Decimal(i));
    }
    TopLoop(vars, item, expr, [Subst(item)], {item}, texts);
  }

  /** A field of the item is that field of the element. */
  lemma WritesField(vars: Vars, item: string, expr: string, field: string, texts: seq<string>)
    requires NoDot(item) && |texts| == vars.size("root." + expr)
    requires forall i :: 0 <= i < |texts| ==>
      texts[i] == vars.get("root." + expr + "." + Decimal(i) + "." + field)
    ensures AllWellFormed([For(item, expr, [Subst(item + "." + field)])])
    ensures Rendered(vars, [For(item, expr, [Subst(item + "." + field)])]) == Flatten(texts)
  {
    FieldWrites(vars, item, field, expr, {item}, texts);
    TopLoop(vars, item, expr, [Subst(item + "." + field)], {item}, texts);
  }

  lemma FieldWrites(vars: Vars, item: string, field: string, path: string, keys: set<string>, texts: seq<string>)
    requires NoDot(item)
    requires forall i :: 0 <= i < |texts| ==>
      texts[i] == vars.get("root." + path + "." + Decimal(i) + "." + field)
    ensures Writes(vars, [Subst(item + "." + field)], item, path, keys, map[], texts)
  {
    var name := item + "." + field;
    forall i: nat, c: Context | i < |texts| && Within(c, keys, map[]) && item in c && c[item] == path + "." + Decimal(i)
      ensures var r := FlowAll(vars, [Subst(name)], c); r.0 == texts[i] && Within(r.1, keys, map[])
    {
      FlowOne(vars, Subst(name), c);
      Bound(item, field, c);
      UnderRoot(path, Decimal(i));
      UnderRoot(path + "." + Decimal(i), field);
    }
  }

  /** In a loop, a name that is neither its item nor a field of it is looked up under the root in every pass. */
  lemma WritesOther(vars: Vars, item: string, expr: string, name: string, texts: seq<string>)
    requires NoDot(item) && !Names(item, name) && |texts| == vars.size("root." + expr)
    requires forall i :: 0 <= i < |texts| ==> texts[i] == vars.get("root." + name)
    ensures AllWellFormed([For(item, expr, [Subst(name)])])
    ensures Rendered(vars, [For(item, expr, [Subst(name)])]) == Flatten(texts)
  {
    forall i: nat, c: Context | i < |texts| && Within(c, {item}, map[]) && item in c && c[item] == expr + "."
      + Decimal(i)
      ensures var r := FlowAll(vars, [Subst(name)], c); r.0 == texts[i] && Within(r.1, {item}, map[])
    {
      FlowOne(vars, Subst(name), c);
      assert forall k :: k in c ==> k == item;
      Unbound(name, c);
    }
    TopLoop(vars, item, expr, [Subst(name)], {item}, texts);
  }

  /** An inner loop over a field of the outer item: `texts[i][j]` is the field of element j of that field of
      element i. */
  lemma WritesInnerField(vars: Vars, outer: string, expr: string, inner: string, field: string, leaf: string,
                         texts: seq<seq<string>>, lines: seq<string>)
    requires NoDot(outer) && NoDot(inner) && |texts| == |lines| == vars.size("root." + expr)
    requires forall i :: 0 <= i < |texts| ==>
      |texts[i]| == vars.size("root." + expr + "." + Decimal(i) + "." + field) && lines[i] == Flatten(texts[i])
    requires forall i, j :: 0 <= i < |texts| && 0 <= j < |texts[i]| ==>
      texts[i][j] == vars.get("root." + expr + "." + Decimal(i) + "." + field + "." + Decimal(j) + "." + leaf)
    ensures AllWellFormed([For(outer, expr, [For(inner, outer + "." + field, [Subst(inner + "." + leaf)])])])
    ensures Rendered(vars, [For(outer, expr, [For(inner, outer + "." + field, [Subst(inner + "." + leaf)])])])
         == Flatten(lines)
  {
    var body := [Subst(inner + "." + leaf)];
    var keys := {outer, inner};
    var loop := For(inner, outer + "." + field, body);
    forall i: nat, c: Context | i < |lines| && Within(c, keys, map[]) && outer in c && c[outer] == expr + "."
      + Decimal(i)
      ensures var r := FlowAll(vars, [loop], c); r.0 == lines[i] && Within(r.1, keys, map[])
    {
      InnerPasses(vars, outer, expr, inner, field, leaf, i, c, texts[i]);
    }
    assert WellFormed(loop);
    TopLoop(vars, outer, expr, [loop], keys, lines);
  }

  lemma InnerPasses(vars: Vars, outer: string, expr: string, inner: string, field: string, leaf: string, i: nat,
                    context: Context, texts: seq<string>)
    requires NoDot(outer) && NoDot(inner) && context.Keys <= {outer, inner}
    requires outer in context && context[outer] == expr + "." + Decimal(i)
    requires |texts| == vars.size("root." + expr + "." + Decimal(i) + "." + field)
    requires forall j :: 0 <= j < |texts| ==>
      texts[j] == vars.get("root." + expr + "." + Decimal(i) + "." + field + "." + Decimal(j) + "." + leaf)
    ensures var r := FlowAll(vars, [For(inner, outer + "." + field, [Subst(inner + "." + leaf)])], context);
      r.0 == Flatten(texts) && Within(r.1, {outer, inner}, map[])
  {
    hide FlowAll;
    hide Translate;
    hide Writes;
    hide Decimal;
    var path := expr + "." + Decimal(i) + "." + field;
    UnderRoot(expr, Decimal(i));
    UnderRoot(expr + "." + Decimal(i), field);
    Bound(outer, field, context);
    FieldWrites(vars, inner, leaf, path, {outer, inner}, texts);
    LoopWrites(vars, inner, outer + "." + field, [Subst(inner + "." + leaf)], path, context, {outer, inner}, map[],
               texts);
  }

  /** In an inner loop, the outer item is still visible, unless the inner one has the same name. */
  lemma WritesOuterField(vars: Vars, outer: string, expr: string, inner: string, field: string, leaf: string,
                         texts: seq<seq<string>>, lines: seq<string>)
    requires NoDot(outer) && NoDot(inner) && outer != inner && |texts| == |lines| == vars.size("root." + expr)
    requires forall i :: 0 <= i < |texts| ==>
      |texts[i]| == vars.size("root." + expr + "." + Decimal(i) + "." + field) && lines[i] == Flatten(texts[i])
    requires forall i, j :: 0 <= i < |texts| && 0 <= j < |texts[i]| ==>
      texts[i][j] == vars.get("root." + expr + "." + Decimal(i) + "." + leaf)
    ensures AllWellFormed([For(outer, expr, [For(inner, outer + "." + field, [Subst(outer + "." + leaf)])])])
    ensures Rendered(vars, [For(outer, expr, [For(inner, outer + "." + field, [Subst(outer + "." + leaf)])])])
         == Flatten(lines)
  {
    var loop := For(inner, outer + "." + field, [Subst(outer + "." + leaf)]);
    var keys := {outer, inner};
    forall i: nat, c: Context | i < |lines| && Within(c, keys, map[]) && outer in c && c[outer] == expr + "."
      + Decimal(i)
      ensures var r := FlowAll(vars, [loop], c); r.0 == lines[i] && Within(r.1, keys, map[])
    {
      OuterPasses(vars, outer, expr, inner, field, leaf, i, c, texts[i]);
    }
    assert WellFormed(loop);
    TopLoop(vars, outer, expr, [loop], keys, lines);
  }

  /** A field of an item that stays bound is the same in every pass. */
  lemma KeptWrites(vars: Vars, outer: string, leaf: string, inner: string, path: string, keys: set<string>,
                   kept: Context, texts: seq<string>)
    requires NoDot(outer) && outer in kept
    requires forall j :: 0 <= j < |texts| ==> texts[j] == vars.get("root." + (kept[outer] + "." + leaf))
    ensures Writes(vars, [Subst(outer + "." + leaf)], inner, path, keys, kept, texts)
  {
    var name := outer + "." + leaf;
    forall j: nat, c: Context |
      j < |texts| && Within(c, keys, kept) && inner in c && c[inner] == path + "." + Decimal(j)
      ensures var r := FlowAll(vars, [Subst(name)], c); r.0 == texts[j] && Within(r.1, keys, kept)
    {
      FlowOne(vars, Subst(name), c);
      Bound(outer, leaf, c);
    }
  }

  lemma OuterPasses(vars: Vars, outer: string, expr: string, inner: string, field: string, leaf: string, i: nat,
                    context: Context, texts: seq<string>)
    requires NoDot(outer) && NoDot(inner) && outer != inner && context.Keys <= {outer, inner}
    requires outer in context && context[outer] == expr + "." + Decimal(i)
    requires |texts| == vars.size("root." + expr + "." + Decimal(i) + "." + field)
    requires forall j :: 0 <= j < |texts| ==> texts[j] == vars.get("root." + expr + "." + Decimal(i) + "." + leaf)
    ensures var r := FlowAll(vars, [For(inner, outer + "." + field, [Subst(outer + "." + leaf)])], context);
      r.0 == Flatten(texts) && Within(r.1, {outer, inner}, map[])
  {
    var name := outer + "." + leaf;
    var path := expr + "." + Decimal(i) + "." + field;
    var kept := map[outer := context[outer]];
    hide FlowAll;
    hide Translate;
    hide Writes;
    hide Decimal;
    UnderRoot(expr, Decimal(i));
    UnderRoot(expr + "." + Decimal(i), field);
    UnderRoot(expr + "." + Decimal(i), leaf);
    Bound(outer, field, context);
    KeptWrites(vars, outer, leaf, inner, path, {outer, inner}, kept, texts);
    LoopWrites(vars, inner, outer + "." + field, [Subst(name)], path, context, {outer, inner}, kept, texts);
  }

  // ---- from the tokens on

  /** What the scanner delivers for a loop with a text and a variable in it, by the numbers of the token kinds. */
  function LoopOf(item: string, expr: string, text: string, name: string, t: seq<string>): seq<Token>
    requires |t| == 9
  {
    [Token(257, t[0]), Token(261, t[1]), Token(262, item), Token(263, t[2]), Token(262, expr), Token(258, t[3]),
     Token(265, text), Token(259, t[4]), Token(262, name), Token(260, t[5]),
     Token(257, t[6]), Token(264, t[7]), Token(258, t[8])]
  }

  /** These tokens are a loop, whatever the texts of the fixed ones are. */
  lemma LoopTokens(item: string, expr: string, text: string, name: string, t: seq<string>)
    requires |t| == 9
    ensures Scanned(LoopOf(item, expr, text, name, t))
    ensures Derives(LoopOf(item, expr, text, name, t), [For(item, expr, [Plain(text), Subst(name)])])
  {
    var body := [Plain(text), Subst(name)];
    var ts := [For(item, expr, body)];
    assert WellFormed(body[0]) && WellFormed(body[1]);
    PrintAllOne(ts[0]);
    PrintAllOne(Subst(name));
    assert body[1..] == [Subst(name)];
    assert PrintAll(body) == Print(Plain(text)) + Print(Subst(name));
    assert PrintAll(ts) == Header(item, expr) + PrintAll(body) + Footer();
  }
}
