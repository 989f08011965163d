/** Ids of executions: a text made of the execution and all it depends on, the same in whatever order the channels were
    created. */
module ExecutionIds {
  import opened Sequences

  datatype Edge = Edge(source: nat, target: nat)

  /** Acyclic: every channel leads to a higher rank. */
  ghost predicate Ranked(edges: seq<Edge>, rank: nat -> nat) {
    forall i :: 0 <= i < |edges| ==> rank(edges[i].source) < rank(edges[i].target)
  }

  /** The sources of the channels from the `i`-th on into `exec`, each followed by its own dependencies. */
  ghost function Dependencies(edges: seq<Edge>, rank: nat -> nat, exec: nat, i: nat): seq<nat>
    requires Ranked(edges, rank) && i <= |edges|
    decreases rank(exec), |edges| - i
  {
    if i == |edges| then []
    else if edges[i].target == exec then
      [edges[i].source] + Dependencies(edges, rank, edges[i].source, 0) + Dependencies(edges, rank, exec, i + 1)
    else Dependencies(edges, rank, exec, i + 1)
  }

  // ---- one dependency per path

  /** A path into `exec`, as the numbers of its channels, the last one first. */
  predicate IsPath(edges: seq<Edge>, p: seq<nat>, exec: nat) {
    && |p| > 0 && p[0] < |edges| && edges[p[0]].target == exec
    && (|p| > 1 ==> IsPath(edges, p[1..], edges[p[0]].source))
  }

  function Prefixed(i: nat, paths: seq<seq<nat>>): (r: seq<seq<nat>>)
    ensures |r| == |paths| && forall k :: 0 <= k < |paths| ==> r[k] == [i] + paths[k]
  {
    seq(|paths|, k requires 0 <= k < |paths| => [i] + paths[k])
  }

  ghost function Paths(edges: seq<Edge>, rank: nat -> nat, exec: nat, i: nat): seq<seq<nat>>
    requires Ranked(edges, rank) && i <= |edges|
    decreases rank(exec), |edges| - i
  {
    if i == |edges| then []
    else if edges[i].target == exec then
      [[i]] + Prefixed(i, Paths(edges, rank, edges[i].source, 0)) + Paths(edges, rank, exec, i + 1)
    else Paths(edges, rank, exec, i + 1)
  }

  predicate EndsAt(edges: seq<Edge>, p: seq<nat>, source: nat) {
    |p| > 0 && p[|p| - 1] < |edges| && edges[p[|p| - 1]].source == source
  }

  /** The `k`-th dependency is where the `k`-th path comes from. */
  lemma {:induction false} DependenciesArePathSources(edges: seq<Edge>, rank: nat -> nat, exec: nat, i: nat)
    requires Ranked(edges, rank) && i <= |edges|
    ensures |Dependencies(edges, rank, exec, i)| == |Paths(edges, rank, exec, i)|
    ensures forall k :: 0 <= k < |Paths(edges, rank, exec, i)| ==>
      EndsAt(edges, Paths(edges, rank, exec, i)[k], Dependencies(edges, rank, exec, i)[k])
    decreases rank(exec), |edges| - i
  {
    if i < |edges| {
      DependenciesArePathSources(edges, rank, exec, i + 1);
      if edges[i].target == exec {
        DependenciesArePathSources(edges, rank, edges[i].source, 0);
      }
    }
  }

  /** Exactly the paths whose last channel is not before the `i`-th are listed. */
  lemma {:induction false} PathsExact(edges: seq<Edge>, rank: nat -> nat, exec: nat, i: nat, p: seq<nat>)
    requires Ranked(edges, rank) && i <= |edges|
    ensures p in Paths(edges, rank, exec, i) <==> IsPath(edges, p, exec) && p[0] >= i
    decreases rank(exec), |edges| - i
  {
    if i < |edges| {
      PathsExact(edges, rank, exec, i + 1, p);
      if edges[i].target == exec {
        var inner := Paths(edges, rank, edges[i].source, 0);
        var rest := Paths(edges, rank, exec, i + 1);
        assert Paths(edges, rank, exec, i) == [[i]] + Prefixed(i, inner) + rest;
        PrefixedExact(i, inner, p);
        if |p| > 1 && p[0] == i {
          PathsExact(edges, rank, edges[i].source, 0, p[1..]);
        }
        if |p| == 1 && p[0] == i {
          assert p == [i];
        }
        EmptyIsNoPath(edges, rank, edges[i].source);
      }
    }
  }

  lemma EmptyIsNoPath(edges: seq<Edge>, rank: nat -> nat, exec: nat)
    requires Ranked(edges, rank)
    ensures [] !in Paths(edges, rank, exec, 0)
  {
    DependenciesArePathSources(edges, rank, exec, 0);
  }

  lemma PrefixedExact(i: nat, paths: seq<seq<nat>>, p: seq<nat>)
    ensures p in Prefixed(i, paths) <==> |p| > 0 && p[0] == i && p[1..] in paths
  {
    if |p| > 0 && p[0] == i && p[1..] in paths {
      var k :| 0 <= k < |paths| && paths[k] == p[1..];
      assert Prefixed(i, paths)[k] == p;
    }
    if p in Prefixed(i, paths) {
      var k :| 0 <= k < |paths| && Prefixed(i, paths)[k] == p;
      assert p[1..] == paths[k];
    }
  }

  ghost predicate Distinct<T>(s: seq<T>) {
    forall j, k :: 0 <= j < k < |s| ==> s[j] != s[k]
  }

  lemma ListedApart(i: nat, inner: seq<seq<nat>>, rest: seq<seq<nat>>)
    requires Distinct(inner) && Distinct(rest) && [] !in inner && forall p :: p in rest ==> |p| > 0 && p[0] > i
    ensures Distinct([[i]] + Prefixed(i, inner) + rest)
  {
    PrefixedDistinct(i, inner);
    var all := [[i]] + Prefixed(i, inner) + rest;
    forall j, k | 0 <= j < k < |all| ensures all[j] != all[k] {
      if k > |inner| {
        assert all[k] in rest;
        assert j <= |inner| ==> all[j][0] == i;
      } else {
        assert all[k] == [i] + inner[k - 1] && inner[k - 1] in inner;
      }
    }
  }

  /** No path is listed twice. */
  lemma {:induction false} PathsDistinct(edges: seq<Edge>, rank: nat -> nat, exec: nat, i: nat)
    requires Ranked(edges, rank) && i <= |edges|
    ensures Distinct(Paths(edges, rank, exec, i))
    decreases rank(exec), |edges| - i
  {
    if i < |edges| {
      PathsDistinct(edges, rank, exec, i + 1);
      if edges[i].target == exec {
        var rest := Paths(edges, rank, exec, i + 1);
        PathsDistinct(edges, rank, edges[i].source, 0);
        EmptyIsNoPath(edges, rank, edges[i].source);
        forall p | p in rest ensures |p| > 0 && p[0] > i {
          PathsExact(edges, rank, exec, i + 1, p);
        }
        ListedApart(i, Paths(edges, rank, edges[i].source, 0), rest);
      }
    }
  }

  lemma PrefixedDistinct(i: nat, paths: seq<seq<nat>>)
    requires Distinct(paths)
    ensures Distinct(Prefixed(i, paths))
  {
    var r := Prefixed(i, paths);
    forall j, k | 0 <= j < k < |r| ensures r[j] != r[k] {
      assert r[j][1..] == paths[j] && r[k][1..] == paths[k];
    }
  }

  ghost predicate Ancestor(edges: seq<Edge>, a: nat, exec: nat) {
    exists p: seq<nat> :: IsPath(edges, p, exec) && EndsAt(edges, p, a)
  }

  /** The dependencies are exactly the ancestors: one entry per path, no more and no less. */
  lemma DependenciesAreAncestors(edges: seq<Edge>, rank: nat -> nat, exec: nat, a: nat)
    requires Ranked(edges, rank)
    ensures a in Dependencies(edges, rank, exec, 0) <==> Ancestor(edges, a, exec)
  {
    var d, paths := Dependencies(edges, rank, exec, 0), Paths(edges, rank, exec, 0);
    DependenciesArePathSources(edges, rank, exec, 0);
    if a in d {
      var k :| 0 <= k < |d| && d[k] == a;
      PathsExact(edges, rank, exec, 0, paths[k]);
      assert EndsAt(edges, paths[k], a);
    }
    if Ancestor(edges, a, exec) {
      var p: seq<nat> :| IsPath(edges, p, exec) && EndsAt(edges, p, a);
      PathsExact(edges, rank, exec, 0, p);
      var k :| 0 <= k < |paths| && paths[k] == p;
      assert EndsAt(edges, paths[k], d[k]);
    }
  }

  /** What the `i`-th channel adds to the dependencies found so far. */
  lemma NextDependencies(edges: seq<Edge>, rank: nat -> nat, exec: nat, i: nat, found: seq<nat>)
    requires Ranked(edges, rank) && i < |edges|
    ensures var src, rest := edges[i].source, Dependencies(edges, rank, exec, i + 1);
      found + Dependencies(edges, rank, exec, i)
      == if edges[i].target == exec then found + [src] + Dependencies(edges, rank, src, 0) + rest else found + rest
  {
    if edges[i].target == exec {
      var own := Dependencies(edges, rank, edges[i].source, 0);
      Assoc(found, [edges[i].source] + own, Dependencies(edges, rank, exec, i + 1));
      Assoc(found, [edges[i].source], own);
    }
  }

  class ExecutionGraph {
    var edges: seq<Edge>

    constructor ()
      ensures edges == []
    {
      edges := [];
    }

    method CreateChannel(source: nat, target: nat)
      modifies this
      ensures edges == old(edges) + [Edge(source, target)]
    {
      edges := edges + [Edge(source, target)];
    }

    /** Terminates on every acyclic graph. */
    method GetDependencies(exec: nat, ghost rank: nat -> nat) returns (dependencies: seq<nat>)
      requires Ranked(edges, rank)
      ensures dependencies == Dependencies(edges, rank, exec, 0)
      decreases rank(exec)
    {
      dependencies := [];
      assert Dependencies(edges, rank, exec, 0) == [] + Dependencies(edges, rank, exec, 0);
      for i := 0 to |edges|
        invariant Dependencies(edges, rank, exec, 0) == dependencies + Dependencies(edges, rank, exec, i)
      {
        NextDependencies(edges, rank, exec, i, dependencies);
        hide Dependencies;
        if edges[i].target == exec {
          var src := edges[i].source;
          ghost var before := dependencies;
          dependencies := dependencies + [src];
          var transitive := GetDependencies(src, rank);
          for k := 0 to |transitive|
            invariant dependencies == before + [src] + transitive[..k]
          {
            dependencies := dependencies + [transitive[k]];
          }
          assert transitive[..|transitive|] == transitive;
        }
      }
    }
  }

  // ---- the order of the channels does not matter

  function Sum<T, U>(f: T -> multiset<U>, s: seq<T>): multiset<U> {
    if s == [] then multiset{} else f(s[0]) + Sum(f, s[1..])
  }

  lemma {:induction false} SumSplit<T, U>(f: T -> multiset<U>, a: seq<T>, b: seq<T>)
    ensures Sum(f, a + b) == Sum(f, a) + Sum(f, b)
  {
    if a == [] {
      assert a + b == b;
    } else {
      assert (a + b)[1..] == a[1..] + b;
      SumSplit(f, a[1..], b);
    }
  }

  /** A sum does not depend on the order of its terms. */
  lemma {:induction false} SumPermuted<T, U>(f: T -> multiset<U>, a: seq<T>, b: seq<T>)
    requires multiset(a) == multiset(b)
    ensures Sum(f, a) == Sum(f, b)
  {
    if a == [] {
      SameLength(a, b);
    } else {
      assert a[0] in multiset(a);
      var k :| 0 <= k < |b| && b[k] == a[0];
      var rest := b[..k] + b[k + 1..];
      RemoveOne(a, b, k);
      assert b == b[..k] + ([b[k]] + b[k + 1..]);
      SumPermuted(f, a[1..], rest);
      SumSplit(f, b[..k], b[k + 1..]);
      SumSplit(f, b[..k], [b[k]] + b[k + 1..]);
      assert ([b[k]] + b[k + 1..])[1..] == b[k + 1..];
    }
  }

  lemma RemoveOne<T>(a: seq<T>, b: seq<T>, k: nat)
    requires multiset(a) == multiset(b) && a != [] && k < |b| && b[k] == a[0]
    ensures multiset(a[1..]) == multiset(b[..k] + b[k + 1..])
  {
    assert a == [a[0]] + a[1..];
    assert b == b[..k] + [b[k]] + b[k + 1..];
    assert multiset(a[1..]) == multiset(a) - multiset{a[0]};
    assert multiset(b[..k] + b[k + 1..]) == multiset(b) - multiset{b[k]};
  }

  lemma SameLength<T>(a: seq<T>, b: seq<T>)
    requires multiset(a) == multiset(b)
    ensures |a| == |b|
  {
    assert |multiset(a)| == |a| && |multiset(b)| == |b|;
  }

  lemma {:induction false} SumSame<T, U>(f: T -> multiset<U>, g: T -> multiset<U>, s: seq<T>)
    requires forall i :: 0 <= i < |s| ==> f(s[i]) == g(s[i])
    ensures Sum(f, s) == Sum(g, s)
  {
    if s != [] {
      SumSame(f, g, s[1..]);
    }
  }

  /** What one channel contributes to the dependencies of its target. */
  ghost function Contribution(edges: seq<Edge>, rank: nat -> nat, exec: nat): Edge -> multiset<nat>
    requires Ranked(edges, rank)
  {
    (e: Edge) =>
      if e.target == exec then multiset{e.source} + multiset(Dependencies(edges, rank, e.source, 0)) else multiset{}
  }

  lemma {:induction false} DependenciesAreSum(edges: seq<Edge>, rank: nat -> nat, exec: nat, i: nat)
    requires Ranked(edges, rank) && i <= |edges|
    ensures multiset(Dependencies(edges, rank, exec, i)) == Sum(Contribution(edges, rank, exec), edges[i..])
    decreases |edges| - i
  {
    if i < |edges| {
      DependenciesAreSum(edges, rank, exec, i + 1);
      assert edges[i..][1..] == edges[i + 1..];
    }
  }

  /** The same channels, created in another order, give the same dependencies, each as often. */
  lemma {:induction false} DependenciesPermuted(edges: seq<Edge>, other: seq<Edge>, rank: nat -> nat, exec: nat)
    requires multiset(edges) == multiset(other) && Ranked(edges, rank) && Ranked(other, rank)
    ensures multiset(Dependencies(edges, rank, exec, 0)) == multiset(Dependencies(other, rank, exec, 0))
    decreases rank(exec)
  {
    var f, g := Contribution(edges, rank, exec), Contribution(other, rank, exec);
    forall i | 0 <= i < |edges| ensures f(edges[i]) == g(edges[i]) {
      if edges[i].target == exec {
        DependenciesPermuted(edges, other, rank, edges[i].source);
      }
    }
    SumSame(f, g, edges);
    SumPermuted(g, edges, other);
    DependenciesAreSum(edges, rank, exec, 0);
    DependenciesAreSum(other, rank, exec, 0);
    assert edges[0..] == edges && other[0..] == other;
  }

  // ---- the order of the keys

  /** Lexicographic order of strings. */
  predicate AtMost(a: string, b: string) {
    if a == "" then true else if b == "" then false else if a[0] != b[0] then a[0] < b[0] else AtMost(a[1..], b[1..])
  }

  lemma {:induction false} AtMostTotal(a: string, b: string)
    ensures AtMost(a, b) || AtMost(b, a)
    ensures AtMost(a, b) && AtMost(b, a) ==> a == b
  {
    if a != "" && b != "" && a[0] == b[0] {
      AtMostTotal(a[1..], b[1..]);
      assert a == [a[0]] + a[1..] && b == [b[0]] + b[1..];
    }
  }

  /** A string is at most another one if it is a beginning of it, or smaller where they first differ. */
  lemma {:induction false} AtMostIs(a: string, b: string)
    ensures AtMost(a, b) <==> a <= b || exists k: nat :: SmallerAt(a, b, k)
  {
    if a != "" && b != "" && a[0] == b[0] {
      AtMostIs(a[1..], b[1..]);
      assert a <= b <==> a[1..] <= b[1..];
      forall k: nat | SmallerAt(a[1..], b[1..], k) ensures SmallerAt(a, b, k + 1) {
      }
      forall k: nat | SmallerAt(a, b, k) ensures k > 0 && SmallerAt(a[1..], b[1..], k - 1) {
        assert a[1..][..k - 1] == a[..k][1..] && b[1..][..k - 1] == b[..k][1..];
      }
    } else if a != "" && b != "" {
      assert a[0] < b[0] ==> SmallerAt(a, b, 0);
    }
  }

  predicate SmallerAt(a: string, b: string, k: nat) {
    k < |a| && k < |b| && a[..k] == b[..k] && a[k] < b[k]
  }

  predicate Descending(keys: seq<string>) {
    forall i, j :: 0 <= i < j < |keys| ==> AtMost(keys[j], keys[i])
  }

  lemma DescendingTail(a: seq<string>)
    requires Descending(a) && a != []
    ensures Descending(a[1..])
  {
  }

  lemma FirstsAgree(a: seq<string>, b: seq<string>)
    requires multiset(a) == multiset(b) && Descending(a) && Descending(b) && a != [] && b != []
    ensures a[0] == b[0]
  {
    assert b[0] in multiset(b) && a[0] in multiset(a);
    AtMostTotal(a[0], b[0]);
  }

  /** Two descending lists of the same keys are the same list. */
  lemma {:induction false} SortedUnique(a: seq<string>, b: seq<string>)
    requires multiset(a) == multiset(b) && Descending(a) && Descending(b)
    ensures a == b
  {
    hide Descending;
    SameLength(a, b);
    if a != [] {
      FirstsAgree(a, b);
      RemoveOne(a, b, 0);
      assert b[..0] + b[1..] == b[1..];
      DescendingTail(a);
      DescendingTail(b);
      SortedUnique(a[1..], b[1..]);
      assert a == [a[0]] + a[1..] && b == [b[0]] + b[1..];
    }
  }

  // ---- ids

  /** The address and the statement of an execution. */
  datatype Job = Job(url: string, sql: string)

  function Key(job: Job): string {
    job.url + job.sql
  }

  function KeysOf(jobs: nat -> Job, s: seq<nat>): (r: seq<string>)
    ensures |r| == |s| && forall i :: 0 <= i < |s| ==> r[i] == Key(jobs(s[i]))
  {
    seq(|s|, i requires 0 <= i < |s| => Key(jobs(s[i])))
  }

  /** What sorting may return: the comparison looks at keys alone, so that equal keys may come in any order. */
  predicate SortedPermutation(jobs: nat -> Job, sorted: seq<nat>, s: seq<nat>) {
    multiset(sorted) == multiset(s) && Descending(KeysOf(jobs, sorted))
  }

  lemma {:induction false} AtMostTrans(a: string, b: string, c: string)
    requires AtMost(a, b) && AtMost(b, c)
    ensures AtMost(a, c)
  {
    if a != "" && a[0] == b[0] && b[0] == c[0] {
      AtMostTrans(a[1..], b[1..], c[1..]);
    }
  }

  /** Where a key belongs: behind all greater ones. */
  function Place(jobs: nat -> Job, key: string, s: seq<nat>): (p: nat)
    ensures p <= |s| && (p < |s| ==> AtMost(Key(jobs(s[p])), key))
    ensures forall i :: 0 <= i < p ==> !AtMost(Key(jobs(s[i])), key)
  {
    if s == [] || AtMost(Key(jobs(s[0])), key) then 0 else 1 + Place(jobs, key, s[1..])
  }

  function Insert(jobs: nat -> Job, e: nat, s: seq<nat>): seq<nat> {
    var p := Place(jobs, Key(jobs(e)), s);
    s[..p] + [e] + s[p..]
  }

  lemma InsertKey(keys: seq<string>, key: string, p: nat)
    requires Descending(keys) && p <= |keys| && (p < |keys| ==> AtMost(keys[p], key))
    requires forall i :: 0 <= i < p ==> !AtMost(keys[i], key)
    ensures Descending(keys[..p] + [key] + keys[p..])
  {
    hide AtMost;
    forall i | 0 <= i < p ensures AtMost(key, keys[i]) { AtMostTotal(key, keys[i]); }
    forall j | p <= j < |keys| ensures AtMost(keys[j], key) {
      if j > p { AtMostTrans(keys[j], keys[p], key); }
    }
    var r := keys[..p] + [key] + keys[p..];
    forall i, j | 0 <= i < j < |r| ensures AtMost(r[j], r[i]) {
      assert r[i] == if i < p then keys[i] else if i == p then key else keys[i - 1];
      assert r[j] == if j < p then keys[j] else if j == p then key else keys[j - 1];
    }
  }

  lemma InsertSorted(jobs: nat -> Job, e: nat, s: seq<nat>)
    requires Descending(KeysOf(jobs, s))
    ensures multiset(Insert(jobs, e, s)) == multiset(s) + multiset{e} && Descending(KeysOf(jobs, Insert(jobs, e, s)))
  {
    hide AtMost;
    hide Descending;
    hide Place;
    var key, keys := Key(jobs(e)), KeysOf(jobs, s);
    var p := Place(jobs, key, s);
    InsertKey(keys, key, p);
    assert s == s[..p] + s[p..];
    assert KeysOf(jobs, Insert(jobs, e, s)) == keys[..p] + [key] + keys[p..];
  }

  /** One way to sort; equal keys end up in the order they had. */
  function Sorted(jobs: nat -> Job, s: seq<nat>): seq<nat> {
    if s == [] then [] else Insert(jobs, s[0], Sorted(jobs, s[1..]))
  }

  lemma {:induction false} SortedSorts(jobs: nat -> Job, s: seq<nat>)
    ensures SortedPermutation(jobs, Sorted(jobs, s), s)
  {
    if s != [] {
      SortedSorts(jobs, s[1..]);
      InsertSorted(jobs, s[0], Sorted(jobs, s[1..]));
      assert s == [s[0]] + s[1..];
    }
  }

  function Tail(jobs: nat -> Job, sorted: seq<nat>): string {
    if sorted == [] then ""
    else
      var last := jobs(sorted[|sorted| - 1]);
      Tail(jobs, sorted[..|sorted| - 1]) + "\n" + (last.url + "\n" + last.sql)
  }

  /** The text whose digest is the id; `own` is the execution's address with its query parameters. */
  function IdText(jobs: nat -> Job, own: string, exec: nat, sorted: seq<nat>): string {
    own + "\n" + jobs(exec).sql + Tail(jobs, sorted)
  }

  /** What the text must consist of: the execution's own address and statement, then those of every dependency. */
  predicate LinesOf(lines: seq<string>, jobs: nat -> Job, own: string, exec: nat, sorted: seq<nat>) {
    && |lines| == 2 + 2 * |sorted| && lines[0] == own && lines[1] == jobs(exec).sql
    && forall i :: 0 <= i < |sorted| ==>
         lines[2 + 2 * i] == jobs(sorted[i]).url && lines[2 + 2 * i + 1] == jobs(sorted[i]).sql
  }

  lemma {:induction false} TextIsLines(lines: seq<string>, jobs: nat -> Job, own: string, exec: nat, sorted: seq<nat>)
    requires LinesOf(lines, jobs, own, exec, sorted)
    ensures IdText(jobs, own, exec, sorted) == Joined(lines, '\n')
    decreases |sorted|
  {
    var n, m := |sorted|, |lines|;
    assert lines[..m - 1][..m - 2] == lines[..m - 2];
    if n == 0 {
      assert Joined(lines[..1], '\n') == own;
    } else {
      var job := jobs(sorted[n - 1]);
      assert lines[2 + 2 * (n - 1)] == job.url && lines[2 + 2 * (n - 1) + 1] == job.sql;
      forall i | 0 <= i < n - 1
        ensures lines[..m - 2][2 + 2 * i] == jobs(sorted[i]).url && lines[..m - 2][2 + 2 * i + 1] == jobs(sorted[i]).sql
      {
        assert lines[2 + 2 * i] == jobs(sorted[i]).url && lines[2 + 2 * i + 1] == jobs(sorted[i]).sql;
      }
      TextIsLines(lines[..m - 2], jobs, own, exec, sorted[..n - 1]);
      var before := Joined(lines[..m - 2], '\n');
      assert Joined(lines[..m - 1], '\n') == before + ['\n'] + job.url;
      assert before + ['\n'] + job.url + ['\n'] + job.sql == before + "\n" + (job.url + "\n" + job.sql);
      Assoc(own + "\n" + jobs(exec).sql, Tail(jobs, sorted[..n - 1]) + "\n", job.url + "\n" + job.sql);
      Assoc(own + "\n" + jobs(exec).sql, Tail(jobs, sorted[..n - 1]), "\n");
    }
  }

  ghost predicate KeysDetermineJobs(jobs: nat -> Job, s: seq<nat>) {
    forall a, b :: a in s && b in s && Key(jobs(a)) == Key(jobs(b)) ==> jobs(a) == jobs(b)
  }

  lemma KeysPermuted(jobs: nat -> Job, a: seq<nat>, b: seq<nat>)
    requires multiset(a) == multiset(b)
    ensures multiset(KeysOf(jobs, a)) == multiset(KeysOf(jobs, b))
  {
    var f := (e: nat) => multiset{Key(jobs(e))};
    KeysAreSum(jobs, a);
    KeysAreSum(jobs, b);
    SumPermuted(f, a, b);
  }

  lemma {:induction false} KeysAreSum(jobs: nat -> Job, a: seq<nat>)
    ensures multiset(KeysOf(jobs, a)) == Sum((e: nat) => multiset{Key(jobs(e))}, a)
  {
    if a != [] {
      KeysAreSum(jobs, a[1..]);
      assert KeysOf(jobs, a) == [Key(jobs(a[0]))] + KeysOf(jobs, a[1..]);
    }
  }

  lemma {:induction false} SameTail(jobs: nat -> Job, a: seq<nat>, b: seq<nat>)
    requires |a| == |b| && forall i :: 0 <= i < |a| ==> jobs(a[i]) == jobs(b[i])
    ensures Tail(jobs, a) == Tail(jobs, b)
  {
    if a != [] {
      SameTail(jobs, a[..|a| - 1], b[..|b| - 1]);
    }
  }

  /** Whatever the sort does with equal keys, the text is the same if the key determines address and statement. */
  lemma KeysDetermineText(jobs: nat -> Job, own: string, exec: nat, s: seq<nat>, a: seq<nat>, b: seq<nat>)
    requires KeysDetermineJobs(jobs, s) && SortedPermutation(jobs, a, s) && SortedPermutation(jobs, b, s)
    ensures IdText(jobs, own, exec, a) == IdText(jobs, own, exec, b)
  {
    KeysPermuted(jobs, a, b);
    SortedUnique(KeysOf(jobs, a), KeysOf(jobs, b));
    SameLength(a, b);
    forall i | 0 <= i < |a| ensures jobs(a[i]) == jobs(b[i]) {
      assert a[i] in multiset(a) && b[i] in multiset(b);
      assert KeysOf(jobs, a)[i] == KeysOf(jobs, b)[i];
    }
    SameTail(jobs, a, b);
  }

  /** Addresses hold no newline. */
  ghost predicate OneLine(jobs: nat -> Job, s: seq<nat>) {
    forall e :: e in s ==> '\n' !in jobs(e).url
  }

  lemma {:induction false} TailSplit(jobs: nat -> Job, a: seq<nat>, b: seq<nat>)
    ensures Tail(jobs, a + b) == Tail(jobs, a) + Tail(jobs, b)
  {
    if b == [] {
      assert a + b == a;
    } else {
      assert (a + b)[..|a + b| - 1] == a + b[..|b| - 1];
      TailSplit(jobs, a, b[..|b| - 1]);
    }
  }

  lemma TailOfTwo(jobs: nat -> Job, x: nat, y: nat)
    ensures Tail(jobs, [x, y]) == "\n" + jobs(x).url + "\n" + jobs(x).sql + "\n" + jobs(y).url + "\n" + jobs(y).sql
  {
    assert [x, y][..1] == [x] && [x][..0] == [];
    assert Tail(jobs, []) == "";
    assert Tail(jobs, [x]) == "" + "\n" + (jobs(x).url + "\n" + jobs(x).sql) == "\n" + jobs(x).url + "\n" + jobs(x).sql;
    Assoc(Tail(jobs, [x]) + "\n", jobs(y).url + "\n", jobs(y).sql);
  }

  lemma SameSplit(u: string, a: string, v: string, b: string)
    requires u + a == v + b && |u| == |v|
    ensures u == v && a == b
  {
    assert u == (u + a)[..|u|] && v == (v + b)[..|v|];
    assert a == (u + a)[|u|..] && b == (v + b)[|v|..];
  }

  /** Two jobs with the same key show which of them comes first: where the shorter address ends, one text has a
      newline and the other has not. */
  lemma OrderShows(jobs: nat -> Job, x: nat, y: nat)
    requires Key(jobs(x)) == Key(jobs(y)) && jobs(x) != jobs(y) && '\n' !in jobs(x).url && '\n' !in jobs(y).url
    ensures Tail(jobs, [x, y]) != Tail(jobs, [y, x]) && |Tail(jobs, [x, y])| == |Tail(jobs, [y, x])|
  {
    var u, v := jobs(x).url, jobs(y).url;
    TailOfTwo(jobs, x, y);
    TailOfTwo(jobs, y, x);
    if |u| == |v| {
      SameSplit(u, jobs(x).sql, v, jobs(y).sql);
      assert false;
    } else if |u| < |v| {
      assert Tail(jobs, [x, y])[1 + |u|] == '\n' && Tail(jobs, [y, x])[1 + |u|] == v[|u|];
    } else {
      assert Tail(jobs, [y, x])[1 + |v|] == '\n' && Tail(jobs, [x, y])[1 + |v|] == u[|v|];
    }
  }

  /** An equal key is inserted right before the one that is there. */
  lemma InsertTwo(jobs: nat -> Job, x: nat, y: nat, s: seq<nat>)
    requires Key(jobs(x)) == Key(jobs(y))
    ensures var p := Place(jobs, Key(jobs(x)), s); Insert(jobs, x, Insert(jobs, y, s)) == s[..p] + [x, y] + s[p..]
  {
    hide AtMost;
    hide Place;
    var key := Key(jobs(x));
    var p, t := Place(jobs, key, s), Insert(jobs, y, s);
    AtMostTotal(key, key);
    TwoAt(s, p, x, y);
    PlaceIs(jobs, key, t, p);
  }

  lemma TwoAt<T>(s: seq<T>, p: nat, x: T, y: T)
    requires p <= |s|
    ensures var t := s[..p] + [y] + s[p..];
      t[p] == y && (forall i :: 0 <= i < p ==> t[i] == s[i]) && t[..p] + [x] + t[p..] == s[..p] + [x, y] + s[p..]
  {
  }

  lemma PlaceIs(jobs: nat -> Job, key: string, s: seq<nat>, p: nat)
    requires p < |s| && AtMost(Key(jobs(s[p])), key)
    requires forall i :: 0 <= i < p ==> !AtMost(Key(jobs(s[i])), key)
    ensures Place(jobs, key, s) == p
  {
  }

  lemma TextOfTwo(jobs: nat -> Job, own: string, exec: nat, x: nat, y: nat, c: seq<nat>, d: seq<nat>)
    requires Tail(jobs, [x, y]) != Tail(jobs, [y, x]) && |Tail(jobs, [x, y])| == |Tail(jobs, [y, x])|
    ensures IdText(jobs, own, exec, c + [x, y] + d) != IdText(jobs, own, exec, c + [y, x] + d)
  {
    hide Tail;
    var first := own + "\n" + jobs(exec).sql;
    var z, t, t' := Tail(jobs, d), Tail(jobs, [x, y]), Tail(jobs, [y, x]);
    TailSplit(jobs, c + [x, y], d);
    TailSplit(jobs, c, [x, y]);
    TailSplit(jobs, c + [y, x], d);
    TailSplit(jobs, c, [y, x]);
    var before := first + Tail(jobs, c);
    assert IdText(jobs, own, exec, c + [x, y] + d) == before + (t + z);
    assert IdText(jobs, own, exec, c + [y, x] + d) == before + (t' + z);
    if before + (t + z) == before + (t' + z) {
      Cancel(before, t + z, t' + z);
      SameSplit(t, z, t', z);
      assert false;
    }
  }

  /** What is left of a list without two of its places. */
  lemma WithoutTwo(s: seq<nat>, x: nat, y: nat) returns (rest: seq<nat>)
    requires x in s && y in s && x != y
    ensures multiset(s) == multiset(rest) + multiset{x} + multiset{y}
  {
    var i :| 0 <= i < |s| && s[i] == x;
    var t := s[..i] + s[i + 1..];
    assert s == s[..i] + [x] + s[i + 1..];
    assert y in multiset(s) && multiset(s) == multiset(t) + multiset{x};
    var j :| 0 <= j < |t| && t[j] == y;
    rest := t[..j] + t[j + 1..];
    assert t == t[..j] + [y] + t[j + 1..];
  }

  /** Two dependencies with the same key and different jobs can be sorted either way, and the text shows which. */
  lemma AmbiguousText(jobs: nat -> Job, own: string, exec: nat, s: seq<nat>, x: nat, y: nat)
    returns (a: seq<nat>, b: seq<nat>)
    requires OneLine(jobs, s) && x in s && y in s && Key(jobs(x)) == Key(jobs(y)) && jobs(x) != jobs(y)
    ensures SortedPermutation(jobs, a, s) && SortedPermutation(jobs, b, s)
    ensures IdText(jobs, own, exec, a) != IdText(jobs, own, exec, b)
  {
    var rest := WithoutTwo(s, x, y);
    var r := Sorted(jobs, rest);
    SortedSorts(jobs, rest);
    InsertSorted(jobs, x, r);
    InsertSorted(jobs, y, r);
    InsertSorted(jobs, x, Insert(jobs, y, r));
    InsertSorted(jobs, y, Insert(jobs, x, r));
    a, b := Insert(jobs, x, Insert(jobs, y, r)), Insert(jobs, y, Insert(jobs, x, r));
    InsertTwo(jobs, x, y, r);
    InsertTwo(jobs, y, x, r);
    OrderShows(jobs, x, y);
    var p := Place(jobs, Key(jobs(x)), r);
    TextOfTwo(jobs, own, exec, x, y, r[..p], r[p..]);
  }

  /** However `s` and `t` are sorted, the text is the same. */
  ghost predicate SameTexts(jobs: nat -> Job, own: string, exec: nat, s: seq<nat>, t: seq<nat>) {
    forall a, b :: SortedPermutation(jobs, a, s) && SortedPermutation(jobs, b, t) ==>
      IdText(jobs, own, exec, a) == IdText(jobs, own, exec, b)
  }

  /** Whatever the sort does with equal keys, the text is the same: that holds if and only if address and statement
      joined without a separator determine the address and the statement. */
  lemma SortingIsCanonical(jobs: nat -> Job, own: string, exec: nat, s: seq<nat>)
    requires OneLine(jobs, s)
    ensures SameTexts(jobs, own, exec, s, s) <==> KeysDetermineJobs(jobs, s)
  {
    if KeysDetermineJobs(jobs, s) {
      forall a, b | SortedPermutation(jobs, a, s) && SortedPermutation(jobs, b, s)
        ensures IdText(jobs, own, exec, a) == IdText(jobs, own, exec, b)
      {
        KeysDetermineText(jobs, own, exec, s, a, b);
      }
    } else {
      var x, y :| x in s && y in s && Key(jobs(x)) == Key(jobs(y)) && jobs(x) != jobs(y);
      var a, b := AmbiguousText(jobs, own, exec, s, x, y);
    }
  }

  lemma SameForPermuted(jobs: nat -> Job, own: string, exec: nat, s: seq<nat>, t: seq<nat>)
    requires multiset(s) == multiset(t) && SameTexts(jobs, own, exec, s, s)
    ensures SameTexts(jobs, own, exec, s, t)
  {
    forall b | SortedPermutation(jobs, b, t) ensures SortedPermutation(jobs, b, s) {}
  }

  /** The text is the same for every order in which the channels were created and whatever the sort does with equal
      keys, if and only if the keys of the dependencies determine their jobs. */
  lemma CanonicalId(jobs: nat -> Job, own: string, exec: nat, edges: seq<Edge>, rank: nat -> nat)
    requires Ranked(edges, rank) && OneLine(jobs, Dependencies(edges, rank, exec, 0))
    ensures (forall other: seq<Edge> :: multiset(edges) == multiset(other) && Ranked(other, rank) ==>
      SameTexts(jobs, own, exec, Dependencies(edges, rank, exec, 0), Dependencies(other, rank, exec, 0)))
      <==> KeysDetermineJobs(jobs, Dependencies(edges, rank, exec, 0))
  {
    var s := Dependencies(edges, rank, exec, 0);
    SortingIsCanonical(jobs, own, exec, s);
    if KeysDetermineJobs(jobs, s) {
      forall other: seq<Edge> | multiset(edges) == multiset(other) && Ranked(other, rank)
        ensures SameTexts(jobs, own, exec, s, Dependencies(other, rank, exec, 0))
      {
        DependenciesPermuted(edges, other, rank, exec);
        SameForPermuted(jobs, own, exec, s, Dependencies(other, rank, exec, 0));
      }
    } else {
      assert multiset(edges) == multiset(edges) && Ranked(edges, rank);
    }
  }

  lemma FirstLine(a: string, s: string, b: string, t: string)
    requires '\n' !in a && '\n' !in b && a + "\n" + s == b + "\n" + t
    ensures a == b && s == t
  {
    var (u, v) := (a + "\n" + s, b + "\n" + t);
    assert u[|a|] == '\n' && v[|b|] == '\n';
    assert (forall i :: 0 <= i < |a| ==> u[i] == a[i]) && (forall i :: 0 <= i < |b| ==> v[i] == b[i]);
    assert a == u[..|a|] && b == v[..|b|] && s == u[|a| + 1..] && t == v[|b| + 1..];
  }

  /** What an id is for: two executions with the same dependencies have the same text if and only if they have the same
      address and the same statement. */
  lemma IdsTell(jobs: nat -> Job, own: string, exec: nat, own': string, exec': nat, s: seq<nat>, a: seq<nat>,
                b: seq<nat>)
    requires '\n' !in own && '\n' !in own' && KeysDetermineJobs(jobs, s)
    requires SortedPermutation(jobs, a, s) && SortedPermutation(jobs, b, s)
    ensures IdText(jobs, own, exec, a) == IdText(jobs, own', exec', b)
      <==> own == own' && jobs(exec).sql == jobs(exec').sql
  {
    hide Tail;
    KeysDetermineText(jobs, own', exec', s, b, a);
    if IdText(jobs, own, exec, a) == IdText(jobs, own', exec', a) {
      var t := Tail(jobs, a);
      var (u, v) := (own + "\n" + jobs(exec).sql, own' + "\n" + jobs(exec').sql);
      assert u == (u + t)[..|u + t| - |t|] && v == (v + t)[..|v + t| - |t|];
      FirstLine(own, jobs(exec).sql, own', jobs(exec').sql);
    }
  }

  /** getUrl without parameters, credentials and fragment. */
  function Address(protocol: string, server: string, path: seq<string>): string {
    protocol + "://" + server + "/" + Joined(path, '/')
  }

  /** Where it goes wrong: one address goes on where the statement of the other one begins. */
  lemma AmbiguousKeys(jobs: nat -> Job, own: string, exec: nat, protocol: string, server: string, path: seq<string>,
                      item: string, more: string, sql: string)
    requires jobs(0) == Job(Address(protocol, server, path + [item]), more + sql)
    requires jobs(1) == Job(Address(protocol, server, path + [item + more]), sql)
    requires more != "" && OneLine(jobs, [0, 1])
    ensures exists a, b :: SortedPermutation(jobs, a, [0, 1]) && SortedPermutation(jobs, b, [0, 1])
                           && IdText(jobs, own, exec, a) != IdText(jobs, own, exec, b)
  {
    JoinedGoesOn(path, item, more);
    var before := protocol + "://" + server + "/";
    assert jobs(1).url == before + Joined(path + [item], '/') + more == jobs(0).url + more;
    assert jobs(0).url + (more + sql) == (jobs(0).url + more) + sql;
    assert 0 in [0, 1] && 1 in [0, 1] && Key(jobs(0)) == Key(jobs(1)) && jobs(0) != jobs(1);
    SortingIsCanonical(jobs, own, exec, [0, 1]);
  }

  lemma JoinedGoesOn(path: seq<string>, item: string, more: string)
    ensures Joined(path + [item + more], '/') == Joined(path + [item], '/') + more
  {
    assert (path + [item + more])[..|path|] == path && (path + [item])[..|path|] == path;
  }

  lemma KeysDescend(jobs: nat -> Job, s: seq<nat>)
    requires Descending(KeysOf(jobs, s))
    ensures forall i, j :: 0 <= i < j < |s| ==>
      AtMost(jobs(s[j]).url + jobs(s[j]).sql, jobs(s[i]).url + jobs(s[i]).sql)
  {
    hide AtMost;
    forall i, j | 0 <= i < j < |s|
      ensures AtMost(jobs(s[j]).url + jobs(s[j]).sql, jobs(s[i]).url + jobs(s[i]).sql)
    {
      assert AtMost(KeysOf(jobs, s)[j], KeysOf(jobs, s)[i]);
    }
  }

  /** The text of the graph's execution: some way of sorting its dependencies, and if the keys determine the jobs, every
      way of sorting them gives this text. */
  method CalculateExecutionId(graph: ExecutionGraph, jobs: nat -> Job, own: string, exec: nat, ghost rank: nat -> nat)
    returns (md5data: string)
    requires Ranked(graph.edges, rank)
    ensures exists sorted :: SortedPermutation(jobs, sorted, Dependencies(graph.edges, rank, exec, 0))
                             && md5data == IdText(jobs, own, exec, sorted)
    ensures exists lines: seq<string>, sorted: seq<nat> ::
      && md5data == Joined(lines, '\n') && LinesOf(lines, jobs, own, exec, sorted)
      && multiset(sorted) == multiset(Dependencies(graph.edges, rank, exec, 0))
      && forall i, j :: 0 <= i < j < |sorted| ==>
           AtMost(jobs(sorted[j]).url + jobs(sorted[j]).sql, jobs(sorted[i]).url + jobs(sorted[i]).sql)
    ensures KeysDetermineJobs(jobs, Dependencies(graph.edges, rank, exec, 0)) ==>
      forall sorted :: SortedPermutation(jobs, sorted, Dependencies(graph.edges, rank, exec, 0)) ==>
        md5data == IdText(jobs, own, exec, sorted)
  {
    hide AtMost;
    hide Descending;
    hide Insert;
    hide Sorted;
    hide Dependencies;
    var found := graph.GetDependencies(exec, rank);
    var dependencies := Sorted(jobs, found);
    SortedSorts(jobs, found);
    var first := own + "\n" + jobs(exec).sql;
    md5data := first;
    ghost var lines := [own, jobs(exec).sql];
    for i := 0 to |dependencies|
      invariant md5data == first + Tail(jobs, dependencies[..i])
      invariant LinesOf(lines, jobs, own, exec, dependencies[..i])
    {
      assert dependencies[..i + 1][..i] == dependencies[..i];
      var job := jobs(dependencies[i]);
      lines := lines + [job.url, job.sql];
      md5data := md5data + "\n";
      md5data := md5data + (job.url + "\n" + job.sql);
    }
    assert dependencies[..|dependencies|] == dependencies;
    TextIsLines(lines, jobs, own, exec, dependencies);
    KeysDescend(jobs, dependencies);
    if KeysDetermineJobs(jobs, found) {
      forall sorted | SortedPermutation(jobs, sorted, found) ensures md5data == IdText(jobs, own, exec, sorted) {
        KeysDetermineText(jobs, own, exec, found, dependencies, sorted);
      }
    }
  }
}
