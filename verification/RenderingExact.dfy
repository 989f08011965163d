/** For which templates rendering with the ever-growing context is lexically scoped expansion: exactly for those that
    use no placeholder after its loop. */
module RenderingExact {
  import opened Wrappers
  import opened Sequences
  import opened ParserModel
  import opened Rendering

  /** The placeholders that are bound in the context after rendering. */
  function Leaks(t: Tmpl): set<string>
    decreases t, 1
  {
    match t
    case Plain(_) => {}
    case Subst(_) => {}
    case For(item, _, body) => {item} + AllLeaks(body)
  }

  function AllLeaks(ts: seq<Tmpl>): set<string>
    decreases ts, 0
  {
    if ts == [] then {} else Leaks(ts[0]) + AllLeaks(ts[1..])
  }

  /** Nothing is written, whatever the variables are. */
  predicate Silent(t: Tmpl)
    decreases t, 1
  {
    match t
    case Plain(text) => text == ""
    case Subst(_) => false
    case For(_, _, body) => AllSilent(body)
  }

  predicate AllSilent(ts: seq<Tmpl>)
    decreases ts, 0
  {
    ts == [] || (Silent(ts[0]) && AllSilent(ts[1..]))
  }

  /** No placeholder of `dirty`, which the context may hold although it is not in scope or with a value other than the
      scope's, is used for anything that is written. In the body of a loop the placeholder of the loop is clean, and
      all that the body itself leaves behind is dirty from the second pass on. */
  predicate Fine(t: Tmpl, dirty: set<string>)
    decreases t, 1
  {
    match t
    case Plain(_) => true
    case Subst(name) => Key(name) !in dirty
    case For(item, expr, body) =>
      AllSilent(body) || (Key(expr) !in dirty && AllFine(body, InBody(item, body, dirty)))
  }

  predicate AllFine(ts: seq<Tmpl>, dirty: set<string>)
    decreases ts, 0
  {
    ts == [] || (Fine(ts[0], dirty) && AllFine(ts[1..], dirty + Leaks(ts[0])))
  }

  function InBody(item: string, body: seq<Tmpl>, dirty: set<string>): set<string> {
    dirty + AllLeaks(body) - {item}
  }

  // ---- fine templates are rendered right

  /** Context and scope agree on all but the dirty names. */
  ghost predicate Same(context: Context, env: Context, dirty: set<string>) {
    forall k :: k !in dirty ==> (k in context <==> k in env) && (k in context ==> context[k] == env[k])
  }

  lemma {:induction false} FlowTouches(vars: Vars, t: Tmpl, context: Context)
    ensures Same(Flow(vars, t, context).1, context, Leaks(t))
    decreases t, 1, 0
  {
    if t.For? {
      var path := Translate(t.expr, context);
      LoopTouches(vars, t.body, path, t.item, 0, vars.size("root." + path), context);
    }
  }

  lemma {:induction false} AllTouches(vars: Vars, ts: seq<Tmpl>, context: Context)
    ensures Same(FlowAll(vars, ts, context).1, context, AllLeaks(ts))
    decreases ts, 0, 0
  {
    if ts != [] {
      FlowTouches(vars, ts[0], context);
      AllTouches(vars, ts[1..], Flow(vars, ts[0], context).1);
    }
  }

  lemma {:induction false} LoopTouches(vars: Vars, body: seq<Tmpl>, path: string, item: string, idx: nat, len: nat,
                                       context: Context)
    requires idx <= len
    ensures Same(FlowLoop(vars, body, path, item, idx, len, context).1, context, {item} + AllLeaks(body))
    decreases body, 1, len - idx
  {
    if idx < len {
      var bound := context[item := path + "." + Decimal(idx)];
      AllTouches(vars, body, bound);
      LoopTouches(vars, body, path, item, idx + 1, len, FlowAll(vars, body, bound).1);
    }
  }

  lemma {:induction false} SilentAll(vars: Vars, ts: seq<Tmpl>, context: Context, env: Context)
    requires AllSilent(ts)
    ensures FlowAll(vars, ts, context).0 == "" && ExpandAll(vars, ts, env) == ""
    decreases ts, 0, 0
  {
    if ts != [] {
      SilentOne(vars, ts[0], context, env);
      SilentAll(vars, ts[1..], Flow(vars, ts[0], context).1, env);
    }
  }

  lemma {:induction false} SilentOne(vars: Vars, t: Tmpl, context: Context, env: Context)
    requires Silent(t)
    ensures Flow(vars, t, context).0 == "" && Expand(vars, t, env) == ""
    decreases t, 1, 0
  {
    if t.For? {
      var path, path' := Translate(t.expr, context), Translate(t.expr, env);
      SilentFlow(vars, t.body, path, t.item, 0, vars.size("root." + path), context);
      SilentExpand(vars, t.body, path', t.item, 0, vars.size("root." + path'), env);
    }
  }

  lemma {:induction false} SilentFlow(vars: Vars, body: seq<Tmpl>, path: string, item: string, idx: nat, len: nat,
                                      context: Context)
    requires AllSilent(body) && idx <= len
    ensures FlowLoop(vars, body, path, item, idx, len, context).0 == ""
    decreases body, 1, len - idx
  {
    if idx < len {
      var bound := context[item := path + "." + Decimal(idx)];
      SilentAll(vars, body, bound, bound);
      SilentFlow(vars, body, path, item, idx + 1, len, FlowAll(vars, body, bound).1);
    }
  }

  lemma {:induction false} SilentExpand(vars: Vars, body: seq<Tmpl>, path: string, item: string, idx: nat, len: nat,
                                        env: Context)
    requires AllSilent(body) && idx <= len
    ensures ExpandLoop(vars, body, path, item, idx, len, env) == ""
    decreases body, 1, len - idx
  {
    if idx < len {
      var bound := env[item := path + "." + Decimal(idx)];
      SilentAll(vars, body, bound, bound);
      SilentExpand(vars, body, path, item, idx + 1, len, env);
    }
  }

  lemma TranslateSame(name: string, context: Context, env: Context, dirty: set<string>)
    requires Same(context, env, dirty) && Key(name) !in dirty
    ensures Translate(name, context) == Translate(name, env)
  {
    if FirstDot(name) == |name| { assert Key(name) == name; }
  }

  lemma {:induction false} FineMeans(vars: Vars, t: Tmpl, context: Context, env: Context, dirty: set<string>)
    requires Fine(t, dirty) && Same(context, env, dirty)
    ensures Flow(vars, t, context).0 == Expand(vars, t, env)
    decreases t, 1, 0
  {
    match t
    case Plain(_) =>
    case Subst(name) => TranslateSame(name, context, env, dirty);
    case For(item, expr, body) =>
      if AllSilent(body) {
        SilentOne(vars, t, context, env);
      } else {
        TranslateSame(expr, context, env, dirty);
        var path := Translate(expr, env);
        LoopMeans(vars, body, path, item, 0, vars.size("root." + path), context, env, dirty);
      }
  }

  lemma {:induction false} AllMean(vars: Vars, ts: seq<Tmpl>, context: Context, env: Context, dirty: set<string>)
    requires AllFine(ts, dirty) && Same(context, env, dirty)
    ensures FlowAll(vars, ts, context).0 == ExpandAll(vars, ts, env)
    decreases ts, 0, 0
  {
    if ts != [] {
      FineMeans(vars, ts[0], context, env, dirty);
      FlowTouches(vars, ts[0], context);
      AllMean(vars, ts[1..], Flow(vars, ts[0], context).1, env, dirty + Leaks(ts[0]));
    }
  }

  lemma {:induction false} LoopMeans(vars: Vars, body: seq<Tmpl>, path: string, item: string, idx: nat, len: nat,
                                     context: Context, env: Context, dirty: set<string>)
    requires idx <= len && AllFine(body, InBody(item, body, dirty))
    requires Same(context, env, InBody(item, body, dirty) + {item})
    ensures FlowLoop(vars, body, path, item, idx, len, context).0 == ExpandLoop(vars, body, path, item, idx, len, env)
    decreases body, 1, len - idx
  {
    if idx < len {
      var value := path + "." + Decimal(idx);
      AllMean(vars, body, context[item := value], env[item := value], InBody(item, body, dirty));
      AllTouches(vars, body, context[item := value]);
      LoopMeans(vars, body, path, item, idx + 1, len, FlowAll(vars, body, context[item := value]).1, env, dirty);
    }
  }

  // ---- variables that show every wrong use: long components mark what loops leave behind

  /** Some part between dots has at least `n` characters. */
  ghost predicate Long(path: string, n: nat) {
    exists i :: WindowAt(path, i, n)
  }

  predicate WindowAt(path: string, i: int, n: nat) {
    0 <= i && i + n <= |path| && forall j :: i <= j < i + n ==> path[j] != '.'
  }

  lemma LongDot(a: string, b: string, n: nat)
    requires n > 0
    ensures Long(a + "." + b, n) <==> Long(a, n) || Long(b, n)
  {
    var ab := a + "." + b;
    if Long(ab, n) {
      var i :| WindowAt(ab, i, n);
      assert ab[|a|] == '.';
      if i + n <= |a| {
        assert forall j :: i <= j < i + n ==> a[j] == ab[j];
        assert WindowAt(a, i, n);
      } else {
        var k := i - |a| - 1;
        assert forall j :: k <= j < k + n ==> b[j] == ab[j + |a| + 1];
        assert WindowAt(b, k, n);
      }
    }
    if Long(a, n) {
      var i :| WindowAt(a, i, n);
      assert forall j :: i <= j < i + n ==> a[j] == ab[j];
      assert WindowAt(ab, i, n);
    }
    if Long(b, n) {
      var i :| WindowAt(b, i, n);
      var k := i + |a| + 1;
      assert forall j :: k <= j < k + n ==> ab[j] == b[j - |a| - 1];
      assert WindowAt(ab, k, n);
    }
  }

  function Pow10(k: nat): (p: nat)
    ensures p > 0
  {
    if k == 0 then 1 else 10 * Pow10(k - 1)
  }

  lemma {:induction false} DecimalLong(m: nat, k: nat)
    requires m >= Pow10(k)
    ensures |Decimal(m)| > k && WindowAt(Decimal(m), 0, |Decimal(m)|)
    decreases m
  {
    if m >= 10 {
      if k > 0 {
        DecimalLong(m / 10, k - 1);
      } else {
        DecimalLong(m / 10, 0);
      }
    }
  }

  lemma IndexIsLong(path: string, m: nat, n: nat)
    requires n > 0 && m >= Pow10(n)
    ensures Long(path + "." + Decimal(m), n)
  {
    DecimalLong(m, n);
    assert WindowAt(Decimal(m), 0, n);
    LongDot(path, Decimal(m), n);
  }

  /** Lists at marked paths are a little shorter, and so are the texts there; every list is so long that its last
      index is marked. */
  ghost function Marking(n: nat): Vars {
    Vars(p => if Long(p, n) then "x" else "xx", p => if Long(p, n) then Pow10(n) + 1 else Pow10(n) + 2)
  }

  ghost predicate LongAt(context: Context, k: string, n: nat) {
    k in context && Long(context[k], n)
  }

  lemma TranslateLong(name: string, context: Context, n: nat)
    requires |name| < n
    ensures Long(Translate(name, context), n) <==> LongAt(context, Key(name), n)
  {
    var idx := FirstDot(name);
    if idx < |name| {
      if Key(name) in context {
        LongDot(context[Key(name)], name[idx + 1..], n);
      }
    } else {
      assert Key(name) == name;
    }
  }

  lemma RootIsShort(path: string, n: nat)
    requires n >= 5
    ensures Long("root." + path, n) <==> Long(path, n)
  {
    LongDot("root", path, n);
    assert "root." + path == "root" + "." + path;
  }

  predicate ShortNames(t: Tmpl, n: nat)
    decreases t, 1
  {
    match t
    case Plain(_) => true
    case Subst(name) => |name| < n
    case For(_, expr, body) => |expr| < n && AllShortNames(body, n)
  }

  predicate AllShortNames(ts: seq<Tmpl>, n: nat)
    decreases ts, 0
  {
    ts == [] || (ShortNames(ts[0], n) && AllShortNames(ts[1..], n))
  }

  // ---- with these variables nothing but wrong uses makes the text shorter

  /** Whatever is marked in the scope is marked in the context. */
  ghost predicate Over(context: Context, env: Context, n: nat) {
    forall k :: LongAt(env, k, n) ==> LongAt(context, k, n)
  }

  ghost predicate OverBut(context: Context, env: Context, n: nat, item: string) {
    forall k :: k != item && LongAt(env, k, n) ==> LongAt(context, k, n)
  }

  lemma OverBound(context: Context, env: Context, n: nat, item: string, path: string, path': string, idx: nat)
    requires n > 0 && OverBut(context, env, n, item) && (Long(path', n) ==> Long(path, n))
    ensures Over(context[item := path + "." + Decimal(idx)], env[item := path' + "." + Decimal(idx)], n)
  {
    LongDot(path, Decimal(idx), n);
    LongDot(path', Decimal(idx), n);
    var bound, bound' := context[item := path + "." + Decimal(idx)], env[item := path' + "." + Decimal(idx)];
    forall k | LongAt(bound', k, n) ensures LongAt(bound, k, n) {
      if k != item {
        assert LongAt(env, k, n);
      }
    }
  }

  lemma {:induction false} NotLonger(n: nat, t: Tmpl, context: Context, env: Context)
    requires n >= 5 && ShortNames(t, n) && Over(context, env, n)
    ensures |Flow(Marking(n), t, context).0| <= |Expand(Marking(n), t, env)|
    ensures Over(Flow(Marking(n), t, context).1, env, n)
    decreases t, 1, 0
  {
    var vars := Marking(n);
    match t
    case Plain(_) =>
    case Subst(name) => PathsOver(n, name, context, env);
    case For(item, expr, body) =>
      PathsOver(n, expr, context, env);
      var path, path' := Translate(expr, context), Translate(expr, env);
      LoopNotLonger(n, body, path, path', item, 0, vars.size("root." + path), vars.size("root." + path'), context, env);
  }

  /** The two paths a name stands for. */
  lemma PathsOver(n: nat, name: string, context: Context, env: Context)
    requires n >= 5 && |name| < n && Over(context, env, n)
    ensures Long(Translate(name, env), n) ==> Long(Translate(name, context), n)
    ensures Long(Translate(name, context), n) <==> LongAt(context, Key(name), n)
    ensures Long(Translate(name, env), n) <==> LongAt(env, Key(name), n)
    ensures Long("root." + Translate(name, context), n) <==> Long(Translate(name, context), n)
    ensures Long("root." + Translate(name, env), n) <==> Long(Translate(name, env), n)
  {
    TranslateLong(name, context, n);
    TranslateLong(name, env, n);
    RootIsShort(Translate(name, context), n);
    RootIsShort(Translate(name, env), n);
  }

  lemma {:induction false} AllNotLonger(n: nat, ts: seq<Tmpl>, context: Context, env: Context)
    requires n >= 5 && AllShortNames(ts, n) && Over(context, env, n)
    ensures |FlowAll(Marking(n), ts, context).0| <= |ExpandAll(Marking(n), ts, env)|
    ensures Over(FlowAll(Marking(n), ts, context).1, env, n)
    decreases ts, 0, 0
  {
    if ts != [] {
      NotLonger(n, ts[0], context, env);
      AllNotLonger(n, ts[1..], Flow(Marking(n), ts[0], context).1, env);
    }
  }

  lemma {:induction false} LoopNotLonger(n: nat, body: seq<Tmpl>, path: string, path': string, item: string, idx: nat,
                                         len: nat, len': nat, context: Context, env: Context)
    requires n >= 5 && AllShortNames(body, n) && OverBut(context, env, n, item) && (Long(path', n) ==> Long(path, n))
    requires idx <= len <= len' && len > Pow10(n)
    ensures |FlowLoop(Marking(n), body, path, item, idx, len, context).0|
         <= |ExpandLoop(Marking(n), body, path', item, idx, len', env)|
    ensures len < len' && !AllSilent(body) ==> (
      |FlowLoop(Marking(n), body, path, item, idx, len, context).0|
      < |ExpandLoop(Marking(n), body, path', item, idx, len', env)|)
    ensures OverBut(FlowLoop(Marking(n), body, path, item, idx, len, context).1, env, n, item)
    ensures idx < len ==> LongAt(FlowLoop(Marking(n), body, path, item, idx, len, context).1, item, n)
    decreases body, 1, len - idx
  {
    var vars := Marking(n);
    if idx < len {
      var bound, bound' := context[item := path + "." + Decimal(idx)], env[item := path' + "." + Decimal(idx)];
      OverBound(context, env, n, item, path, path', idx);
      AllNotLonger(n, body, bound, bound');
      var after := FlowAll(vars, body, bound).1;
      LoopNotLonger(n, body, path, path', item, idx + 1, len, len', after, env);
      if idx + 1 == len {
        IndexIsLong(path', idx, n);
        assert LongAt(bound', item, n);
      }
    } else if idx < len' && !AllSilent(body) {
      LoudAll(n, body, env[item := path' + "." + Decimal(idx)]);
    }
  }

  lemma {:induction false} LoudAll(n: nat, ts: seq<Tmpl>, env: Context)
    requires !AllSilent(ts)
    ensures |ExpandAll(Marking(n), ts, env)| > 0
    decreases ts, 0
  {
    if Silent(ts[0]) {
      LoudAll(n, ts[1..], env);
    } else {
      Loud(n, ts[0], env);
    }
  }

  lemma {:induction false} Loud(n: nat, t: Tmpl, env: Context)
    requires !Silent(t)
    ensures |Expand(Marking(n), t, env)| > 0
    decreases t, 1
  {
    if t.For? {
      var path := Translate(t.expr, env);
      LoudAll(n, t.body, env[t.item := path + "." + Decimal(0)]);
    }
  }

  // ---- what loops leave behind is marked

  lemma {:induction false} Leaves(n: nat, t: Tmpl, context: Context, k: string)
    requires n >= 5 && (LongAt(context, k, n) || k in Leaks(t))
    ensures LongAt(Flow(Marking(n), t, context).1, k, n)
    decreases t, 1, 0
  {
    if t.For? {
      var path := Translate(t.expr, context);
      LoopLeaves(n, t.body, path, t.item, 0, Marking(n).size("root." + path), context, k);
    }
  }

  lemma {:induction false} AllLeave(n: nat, ts: seq<Tmpl>, context: Context, k: string)
    requires n >= 5 && (LongAt(context, k, n) || k in AllLeaks(ts))
    ensures LongAt(FlowAll(Marking(n), ts, context).1, k, n)
    decreases ts, 0, 0
  {
    if ts != [] {
      var after := Flow(Marking(n), ts[0], context).1;
      if LongAt(context, k, n) || k in Leaks(ts[0]) {
        Leaves(n, ts[0], context, k);
      }
      AllLeave(n, ts[1..], after, k);
    }
  }

  lemma {:induction false} LoopLeaves(n: nat, body: seq<Tmpl>, path: string, item: string, idx: nat, len: nat,
                                      context: Context, k: string)
    requires n >= 5 && idx < len && len > Pow10(n)
    requires LongAt(context, k, n) || k == item || k in AllLeaks(body)
    ensures LongAt(FlowLoop(Marking(n), body, path, item, idx, len, context).1, k, n)
    decreases body, 1, len - idx
  {
    var bound := context[item := path + "." + Decimal(idx)];
    var after := FlowAll(Marking(n), body, bound).1;
    if idx + 1 == len {
      IndexIsLong(path, idx, n);
    }
    if LongAt(bound, k, n) || k in AllLeaks(body) {
      AllLeave(n, body, bound, k);
    }
    if idx + 1 < len {
      LoopLeaves(n, body, path, item, idx + 1, len, after, k);
    }
  }

  // ---- and so every wrong use makes it shorter

  ghost predicate Unmarked(env: Context, n: nat) {
    forall k :: !LongAt(env, k, n)
  }

  ghost predicate Marked(context: Context, dirty: set<string>, n: nat) {
    forall k :: k in dirty ==> LongAt(context, k, n)
  }

  lemma {:induction false} Shorter(n: nat, t: Tmpl, context: Context, env: Context, dirty: set<string>)
    requires n >= 5 && ShortNames(t, n) && !Fine(t, dirty) && Unmarked(env, n) && Marked(context, dirty, n)
    ensures |Flow(Marking(n), t, context).0| < |Expand(Marking(n), t, env)|
    decreases t, 1, 0
  {
    var vars := Marking(n);
    match t
    case Subst(name) => PathsOver(n, name, context, env);
    case For(item, expr, body) =>
      PathsOver(n, expr, context, env);
      var path, path' := Translate(expr, context), Translate(expr, env);
      if Key(expr) in dirty {
        LoopNotLonger(n, body, path, path', item, 0, vars.size("root." + path), vars.size("root." + path'), context,
                      env);
      } else {
        SecondPassShorter(n, body, path, path', item, vars.size("root." + path), vars.size("root." + path'), context,
                          env, dirty);
      }
  }

  lemma {:induction false} AllShorter(n: nat, ts: seq<Tmpl>, context: Context, env: Context, dirty: set<string>)
    requires n >= 5 && AllShortNames(ts, n) && !AllFine(ts, dirty) && Unmarked(env, n) && Marked(context, dirty, n)
    ensures |FlowAll(Marking(n), ts, context).0| < |ExpandAll(Marking(n), ts, env)|
    decreases ts, 0, 0
  {
    var after := Flow(Marking(n), ts[0], context).1;
    NotLonger(n, ts[0], context, env);
    if !Fine(ts[0], dirty) {
      Shorter(n, ts[0], context, env, dirty);
      AllNotLonger(n, ts[1..], after, env);
    } else {
      forall k | k in dirty + Leaks(ts[0]) ensures LongAt(after, k, n) {
        Leaves(n, ts[0], context, k);
      }
      AllShorter(n, ts[1..], after, env, dirty + Leaks(ts[0]));
    }
  }

  lemma FirstIndexesAreShort(path: string, idx: nat, n: nat)
    requires n >= 5 && idx < 10 && !Long(path, n)
    ensures !Long(path + "." + Decimal(idx), n)
  {
    LongDot(path, Decimal(idx), n);
    assert |Decimal(idx)| == 1;
  }

  /** What the first pass leaves behind shows in the second. */
  lemma {:induction false} SecondPassShorter(n: nat, body: seq<Tmpl>, path: string, path': string, item: string,
                                             len: nat, len': nat, context: Context, env: Context, dirty: set<string>)
    requires n >= 5 && AllShortNames(body, n) && !AllFine(body, InBody(item, body, dirty))
    requires Unmarked(env, n) && Marked(context, dirty, n) && !Long(path', n) && Pow10(n) < len <= len'
    ensures |FlowLoop(Marking(n), body, path, item, 0, len, context).0|
          < |ExpandLoop(Marking(n), body, path', item, 0, len', env)|
    decreases body, 1, 0
  {
    var vars := Marking(n);
    var c0, e0 := context[item := path + "." + Decimal(0)], env[item := path' + "." + Decimal(0)];
    OverBound(context, env, n, item, path, path', 0);
    AllNotLonger(n, body, c0, e0);
    var after := FlowAll(vars, body, c0).1;
    var c1, e1 := after[item := path + "." + Decimal(1)], env[item := path' + "." + Decimal(1)];
    forall k | k in InBody(item, body, dirty) ensures LongAt(c1, k, n) {
      AllLeave(n, body, c0, k);
    }
    FirstIndexesAreShort(path', 1, n);
    forall k ensures !LongAt(e1, k, n) {
      assert !LongAt(env, k, n);
    }
    AllShorter(n, body, c1, e1, InBody(item, body, dirty));
    AllNotLonger(n, body, c1, e1);
    LoopNotLonger(n, body, path, path', item, 2, len, len', FlowAll(vars, body, c1).1, env);
  }

  // ---- the exact condition

  /** Longer than every name in the templates. */
  function Bound(ts: seq<Tmpl>): nat
    decreases ts, 0
  {
    if ts == [] then 5 else BoundOne(ts[0]) + Bound(ts[1..])
  }

  function BoundOne(t: Tmpl): nat
    decreases t, 1
  {
    match t
    case Plain(_) => 0
    case Subst(name) => |name| + 1
    case For(_, expr, body) => |expr| + 1 + Bound(body)
  }

  lemma {:induction false} BoundIsEnough(ts: seq<Tmpl>, n: nat)
    requires n >= Bound(ts)
    ensures n >= 5 && AllShortNames(ts, n)
    decreases ts
  {
    if ts != [] {
      BoundIsEnough(ts[1..], n);
      if ts[0].For? {
        BoundIsEnough(ts[0].body, n);
      }
    }
  }

  /** A file is rendered to its lexically scoped expansion for all variables if and only if it uses no dirty
      placeholder; and whether it does can be seen from the templates alone. */
  lemma RenderingIsExpansion(ts: seq<Tmpl>)
    requires AllWellFormed(ts)
    ensures (forall vars: Vars :: Rendered(vars, ts) == ExpandAll(vars, ts, map[])) <==> AllFine(ts, {})
  {
    var none: Context := map[];
    if AllFine(ts, {}) {
      forall vars: Vars ensures Rendered(vars, ts) == ExpandAll(vars, ts, map[]) {
        RenderedIsFlow(vars, ts);
        AllMean(vars, ts, none, none, {});
      }
    } else {
      var n := Bound(ts);
      BoundIsEnough(ts, n);
      RenderedIsFlow(Marking(n), ts);
      AllShorter(n, ts, none, none, {});
    }
  }

  /** The shortest wrong template: a placeholder used after its loop. */
  lemma PlaceholderLeaks(item: string, expr: string, text: string)
    requires '.' !in item && text != ""
    ensures var ts := [For(item, expr, [Plain(text)]), Subst(item)];
      AllWellFormed(ts) && exists vars: Vars :: Rendered(vars, ts) != ExpandAll(vars, ts, map[])
  {
    var loop := For(item, expr, [Plain(text)]);
    var ts := [loop, Subst(item)];
    assert ts[1..] == [Subst(item)];
    assert FirstDot(item) == |item| && Key(item) == item;
    assert item in Leaks(loop);
    assert !AllFine(ts[1..], {} + Leaks(loop));
    assert AllWellFormed(ts[1..]);
    RenderingIsExpansion(ts);
  }
}
