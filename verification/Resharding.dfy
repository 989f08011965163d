/** Re-sharding in flight: one table split over many ports by shard key, and many tables joined into one. */
module Resharding {
  import opened Wrappers
  import opened Dataflow
  import opened Sequences
  import Views

  /** A sharder recognises its key column by name; a key it cannot place has no shard. */
  datatype Sharder = Sharder(matches: string -> bool, shardOf: string -> Option<int>)

  // ---- where the rows go

  /** The rows among the first `n` that go to shard `id`, in source order. */
  function Members(ids: seq<Option<int>>, id: int, n: nat): (r: seq<nat>)
    requires n <= |ids|
    ensures forall k :: 0 <= k < |r| ==> r[k] < n
  {
    if n == 0 then [] else Members(ids, id, n - 1) + if ids[n - 1] == Some(id) then [n - 1] else []
  }

  /** Exactly the rows with that id, each once, in source order. */
  lemma {:induction false} MembersExact(ids: seq<Option<int>>, id: int, n: nat)
    requires n <= |ids|
    ensures forall row :: row in Members(ids, id, n) <==> 0 <= row < n && ids[row] == Some(id)
    ensures forall i, j :: 0 <= i < j < |Members(ids, id, n)| ==> Members(ids, id, n)[i] < Members(ids, id, n)[j]
  {
    if n > 0 {
      var before := Members(ids, id, n - 1);
      assert Members(ids, id, n) == if ids[n - 1] == Some(id) then before + [n - 1] else before;
      MembersExact(ids, id, n - 1);
      hide Members;
      OneMoreMember(before, n - 1);
    }
  }

  lemma OneMoreMember(before: seq<nat>, row: nat)
    requires forall k :: 0 <= k < |before| ==> before[k] < row
    requires forall i, j :: 0 <= i < j < |before| ==> before[i] < before[j]
    ensures var r := before + [row];
      && (forall x :: x in r <==> x in before || x == row)
      && (forall i, j :: 0 <= i < j < |r| ==> r[i] < r[j])
  {
  }

  /** Every row with a valid key goes to exactly one port, and every row without one to none. */
  lemma OnePort(ids: seq<Option<int>>, row: nat, id: int)
    requires row < |ids|
    ensures row in Members(ids, id, |ids|) <==> ids[row] == Some(id)
  {
    MembersExact(ids, id, |ids|);
  }

  /** The first `n` rows as the shards 1 to `p` receive them. */
  function Shards(source: Table, ids: seq<Option<int>>, n: nat, p: nat): (r: seq<Table>)
    requires n <= |ids| == |source|
    ensures |r| == p
  {
    seq(p, i requires 0 <= i => Views.Pick(source, Members(ids, i + 1, n)))
  }

  predicate Valid(id: Option<int>, p: nat) {
    id.Some? && 1 <= id.value <= p
  }

  /** The rows whose key is valid, in source order. */
  function Kept(source: Table, ids: seq<Option<int>>, n: nat, p: nat): Table
    requires n <= |ids| == |source|
  {
    if n == 0 then [] else Kept(source, ids, n - 1, p) + if Valid(ids[n - 1], p) then [source[n - 1]] else []
  }

  lemma {:induction false} KeptAll(source: Table, ids: seq<Option<int>>, n: nat, p: nat)
    requires n <= |ids| == |source|
    ensures |Kept(source, ids, n, p)| <= n
    ensures Kept(source, ids, n, p) == source[..n] <==> forall row :: 0 <= row < n ==> Valid(ids[row], p)
  {
    if n > 0 {
      KeptAll(source, ids, n - 1, p);
      if Valid(ids[n - 1], p) {
        assert source[..n] == source[..n - 1] + [source[n - 1]];
        if Kept(source, ids, n, p) == source[..n] {
          assert Kept(source, ids, n, p)[..n - 1] == Kept(source, ids, n - 1, p);
        }
      }
    }
  }

  lemma PickMore(source: Table, ids: seq<Option<int>>, id: int, n: nat)
    requires 0 < n <= |ids| == |source|
    ensures Views.Pick(source, Members(ids, id, n))
      == Views.Pick(source, Members(ids, id, n - 1)) + if ids[n - 1] == Some(id) then [source[n - 1]] else []
  {
  }

  lemma ConcatLast(tables: seq<Table>, first: seq<Table>, last: Table)
    requires tables == first + [last]
    ensures multiset(Flatten(tables)) == multiset(Flatten(first)) + multiset(last)
  {
    assert tables[..|tables| - 1] == first;
  }

  /** What row `n - 1` adds to the shards 1 to `p`. */
  function Added(source: Table, ids: seq<Option<int>>, n: nat, p: nat): multiset<Row>
    requires 0 < n <= |ids| == |source|
  {
    if Valid(ids[n - 1], p) then multiset{source[n - 1]} else multiset{}
  }

  lemma PickAdds(source: Table, ids: seq<Option<int>>, p: nat, n: nat)
    requires 0 < n <= |ids| == |source| && 0 < p
    ensures multiset(Views.Pick(source, Members(ids, p, n))) + Added(source, ids, n, p - 1)
         == multiset(Views.Pick(source, Members(ids, p, n - 1))) + Added(source, ids, n, p)
  {
    PickMore(source, ids, p, n);
  }

  lemma ShardsSnoc(source: Table, ids: seq<Option<int>>, n: nat, p: nat)
    requires n <= |ids| == |source| && 0 < p
    ensures Shards(source, ids, n, p) == Shards(source, ids, n, p - 1) + [Views.Pick(source, Members(ids, p, n))]
  {
  }

  lemma NoShards(source: Table, ids: seq<Option<int>>, n: nat)
    requires n <= |ids| == |source|
    ensures Shards(source, ids, n, 0) == []
    ensures n > 0 ==> Added(source, ids, n, 0) == multiset{}
  {
  }

  /** One more source row adds one row to the shards taken together if its key is valid. */
  lemma {:induction false} ShardsMore(source: Table, ids: seq<Option<int>>, n: nat, p: nat)
    requires 0 < n <= |ids| == |source|
    ensures multiset(Flatten(Shards(source, ids, n, p)))
      == multiset(Flatten(Shards(source, ids, n - 1, p))) + Added(source, ids, n, p)
  {
    hide *;
    if p == 0 {
      NoShards(source, ids, n);
      NoShards(source, ids, n - 1);
    } else {
      ShardsSnoc(source, ids, n, p);
      ShardsSnoc(source, ids, n - 1, p);
      PickAdds(source, ids, p, n);
      ShardsMore(source, ids, n, p - 1);
      OneShardMore(Shards(source, ids, n, p - 1), Shards(source, ids, n - 1, p - 1),
                   Views.Pick(source, Members(ids, p, n)),
                   Views.Pick(source, Members(ids, p, n - 1)), Added(source, ids, n, p - 1), Added(source, ids, n, p));
    }
  }

  lemma OneShardMore(a: seq<Table>, b: seq<Table>, now: Table, before: Table, less: multiset<Row>, more: multiset<Row>)
    requires multiset(Flatten(a)) == multiset(Flatten(b)) + less && multiset(now) + less == multiset(before) + more
    ensures multiset(Flatten(a + [now])) == multiset(Flatten(b + [before])) + more
  {
    hide Flatten;
    ConcatLast(a + [now], a, now);
    ConcatLast(b + [before], b, before);
    Shift(multiset(Flatten(a)), multiset(Flatten(b)), multiset(now), multiset(before), less, more);
  }

  lemma Shift<T>(a: multiset<T>, b: multiset<T>, now: multiset<T>, before: multiset<T>, less: multiset<T>,
                 more: multiset<T>)
    requires a == b + less && now + less == before + more
    ensures a + now == b + before + more
  {
    assert a + now == b + (now + less);
  }

  lemma KeptMore(source: Table, ids: seq<Option<int>>, n: nat, p: nat)
    requires 0 < n <= |ids| == |source|
    ensures multiset(Kept(source, ids, n, p)) == multiset(Kept(source, ids, n - 1, p)) + Added(source, ids, n, p)
  {
  }

  lemma NoneKept(source: Table, ids: seq<Option<int>>, p: nat)
    requires |ids| == |source|
    ensures Kept(source, ids, 0, p) == []
  {
  }

  /** Conservation: joining the ports gives a permutation of the rows whose key is valid. */
  lemma {:induction false} ShardsConserve(source: Table, ids: seq<Option<int>>, n: nat, p: nat)
    requires n <= |ids| == |source|
    ensures multiset(Flatten(Shards(source, ids, n, p))) == multiset(Kept(source, ids, n, p))
  {
    hide *;
    if n == 0 {
      NoRows(source, ids, p);
      NoneKept(source, ids, p);
    } else {
      ShardsMore(source, ids, n, p);
      ShardsConserve(source, ids, n - 1, p);
      KeptMore(source, ids, n, p);
    }
  }

  lemma {:induction false} NoRows(source: Table, ids: seq<Option<int>>, p: nat)
    requires |ids| == |source|
    ensures Flatten(Shards(source, ids, 0, p)) == []
  {
    if p > 0 {
      assert Shards(source, ids, 0, p)[..p - 1] == Shards(source, ids, 0, p - 1);
      NoRows(source, ids, p - 1);
    }
  }

  function Broadcast(source: Table, p: nat): (r: seq<Table>)
    ensures |r| == p && forall i :: 0 <= i < p ==> r[i] == source
  {
    if p == 0 then [] else Broadcast(source, p - 1) + [source]
  }

  /** Without a shard key column every port gets the whole table, so joining the ports gives every row `p` times. */
  lemma {:induction false} BroadcastMultiplies(source: Table, p: nat, row: Row)
    ensures multiset(Flatten(Broadcast(source, p)))[row] == p * multiset(source)[row]
  {
    if p > 0 {
      ConcatLast(Broadcast(source, p), Broadcast(source, p - 1), source);
      BroadcastMultiplies(source, p - 1, row);
      var m := multiset(source)[row];
      assert p * m == (p - 1) * m + m;
    }
  }

  // ---- which sharder is used

  /** The first column the sharder recognises. */
  function KeyColumn(s: Sharder, columns: seq<string>, from: nat): Option<nat>
    requires from <= |columns|
    decreases |columns| - from
  {
    if from == |columns| then None else if s.matches(columns[from]) then Some(from) else KeyColumn(s, columns, from + 1)
  }

  /** The first sharder that recognises a column, with that column. */
  function Choice(sharders: seq<Sharder>, columns: seq<string>, from: nat): Option<(nat, nat)>
    requires from <= |sharders|
    decreases |sharders| - from
  {
    if from == |sharders| then None
    else match KeyColumn(sharders[from], columns, 0)
      case Some(column) => Some((from, column))
      case None => Choice(sharders, columns, from + 1)
  }

  lemma {:induction false} KeyColumnIsFirst(s: Sharder, columns: seq<string>, from: nat)
    requires from <= |columns|
    ensures match KeyColumn(s, columns, from)
      case Some(c) => from <= c < |columns| && s.matches(columns[c])
        && forall k :: from <= k < c ==> !s.matches(columns[k])
      case None => forall k :: from <= k < |columns| ==> !s.matches(columns[k])
    decreases |columns| - from
  {
    if from < |columns| && !s.matches(columns[from]) {
      KeyColumnIsFirst(s, columns, from + 1);
    }
  }

  predicate Recognises(s: Sharder, columns: seq<string>) {
    KeyColumn(s, columns, 0).Some?
  }

  /** No earlier sharder recognises any column, and of the chosen one's columns none comes before the chosen one. */
  lemma {:induction false} ChoiceIsFirst(sharders: seq<Sharder>, columns: seq<string>, from: nat)
    requires from <= |sharders|
    ensures match Choice(sharders, columns, from)
      case Some((s, c)) =>
        && from <= s < |sharders| && KeyColumn(sharders[s], columns, 0) == Some(c) && c < |columns|
        && forall k :: from <= k < s ==> !Recognises(sharders[k], columns)
      case None => forall k :: from <= k < |sharders| ==> !Recognises(sharders[k], columns)
    decreases |sharders| - from
  {
    if from < |sharders| {
      KeyColumnIsFirst(sharders[from], columns, 0);
      if KeyColumn(sharders[from], columns, 0).None? {
        ChoiceIsFirst(sharders, columns, from + 1);
      }
    }
  }

  function Ids(s: Sharder, source: Table, column: nat): (r: seq<Option<int>>)
    requires forall row :: 0 <= row < |source| ==> column < |source[row]|
    ensures |r| == |source|
  {
    seq(|source|, row requires 0 <= row < |source| => s.shardOf(source[row][column]))
  }

  predicate Rectangular(columns: seq<string>, source: Table) {
    forall row :: 0 <= row < |source| ==> |source[row]| == |columns|
  }

  /** What the ports receive. */
  function Ports(sharders: seq<Sharder>, noShards: nat, columns: seq<string>, source: Table): (r: seq<Table>)
    requires Rectangular(columns, source)
    ensures |r| == noShards
  {
    ChoiceIsFirst(sharders, columns, 0);
    match Choice(sharders, columns, 0)
    case None => Broadcast(source, noShards)
    case Some((s, c)) => Shards(source, Ids(sharders[s], source, c), |source|, noShards)
  }

  /** The first sharder that recognises a column, and the first column that it recognises. */
  predicate Chosen(sharders: seq<Sharder>, columns: seq<string>, s: nat, c: nat) {
    && s < |sharders| && c < |columns| && sharders[s].matches(columns[c])
    && (forall k :: 0 <= k < c ==> !sharders[s].matches(columns[k]))
    && (forall t, k :: 0 <= t < s && 0 <= k < |columns| ==> !sharders[t].matches(columns[k]))
  }

  lemma ChoiceIs(sharders: seq<Sharder>, columns: seq<string>, s: nat, c: nat)
    requires Chosen(sharders, columns, s, c)
    ensures Choice(sharders, columns, 0) == Some((s, c))
  {
    ChoiceIsFirst(sharders, columns, 0);
    KeyColumnIsFirst(sharders[s], columns, 0);
    if Choice(sharders, columns, 0).Some? {
      var t := Choice(sharders, columns, 0).value.0;
      KeyColumnIsFirst(sharders[t], columns, 0);
    }
  }

  predicate Increasing(rows: seq<nat>) {
    forall i, j :: 0 <= i < j < |rows| ==> rows[i] < rows[j]
  }

  /** An increasing list is determined by its members. */
  lemma {:induction false} SameMembers(a: seq<nat>, b: seq<nat>)
    requires Increasing(a) && Increasing(b) && forall row :: row in a <==> row in b
    ensures a == b
    decreases |a|
  {
    if a != [] && b != [] {
      var m, n := |a| - 1, |b| - 1;
      assert a[m] in b && b[n] in a;
      assert a[m] == b[n];
      forall row ensures row in a[..m] <==> row in b[..n] {
        assert row in a[..m] <==> row in a && row != a[m];
        assert row in b[..n] <==> row in b && row != b[n];
      }
      SameMembers(a[..m], b[..n]);
      assert a == a[..m] + [a[m]] && b == b[..n] + [b[n]];
    } else {
      SomeMember(a);
      SomeMember(b);
    }
  }

  lemma SomeMember(a: seq<nat>)
    ensures a != [] ==> exists row: nat :: row in a
  {
    if a != [] {
      assert a[0] in a;
    }
  }

  lemma MembersAre(ids: seq<Option<int>>, id: int, rows: seq<nat>)
    requires Increasing(rows) && forall row: nat :: row in rows <==> row < |ids| && ids[row] == Some(id)
    ensures Members(ids, id, |ids|) == rows
  {
    MembersExact(ids, id, |ids|);
    hide Members;
    SameMembers(Members(ids, id, |ids|), rows);
  }

  lemma PortIs(sharders: seq<Sharder>, noShards: nat, columns: seq<string>, source: Table, s: nat, c: nat, p: nat)
    requires Rectangular(columns, source) && Chosen(sharders, columns, s, c) && p < noShards
    ensures forall row :: 0 <= row < |source| ==> c < |source[row]|
    ensures Ports(sharders, noShards, columns, source)[p]
         == Views.Pick(source, Members(Ids(sharders[s], source, c), p + 1, |source|))
  {
    ChoiceIs(sharders, columns, s, c);
    hide Choice;
    hide KeyColumn;
    hide Members;
  }

  /** Port `p` receives exactly the rows whose value in the chosen column the chosen sharder places in shard p + 1, in
      source order: `rows` lists their numbers. */
  lemma PortRows(sharders: seq<Sharder>, noShards: nat, columns: seq<string>, source: Table, s: nat, c: nat, p: nat,
                 rows: seq<nat>)
    requires Rectangular(columns, source) && Chosen(sharders, columns, s, c) && p < noShards && Increasing(rows)
    requires forall row: nat :: row in rows <==>
      row < |source| && sharders[s].shardOf(source[row][c]) == Some(p + 1)
    ensures |Ports(sharders, noShards, columns, source)[p]| == |rows|
    ensures forall k :: 0 <= k < |rows| ==>
      rows[k] < |source| && Ports(sharders, noShards, columns, source)[p][k] == source[rows[k]]
  {
    PortIs(sharders, noShards, columns, source, s, c, p);
    assert s < |sharders|;
    hide Ports;
    hide Chosen;
    hide Rectangular;
    hide Increasing;
    var ids := Ids(sharders[s], source, c);
    MembersAre(ids, p + 1, rows);
    hide Ids;
    forall k | 0 <= k < |rows| ensures rows[k] < |source| {
      assert rows[k] in rows;
    }
  }

  /** If no sharder recognises a column, every port receives the whole table. */
  lemma NoKeyColumn(sharders: seq<Sharder>, noShards: nat, columns: seq<string>, source: Table, p: nat)
    requires Rectangular(columns, source) && p < noShards
    requires forall s, k :: 0 <= s < |sharders| && 0 <= k < |columns| ==> !sharders[s].matches(columns[k])
    ensures Ports(sharders, noShards, columns, source)[p] == source
  {
    ChoiceIsFirst(sharders, columns, 0);
    if Choice(sharders, columns, 0).Some? {
      KeyColumnIsFirst(sharders[Choice(sharders, columns, 0).value.0], columns, 0);
    }
  }

  /** Every key the chosen sharder places, it places in 1..noShards; otherwise the original writes outside its vector.
      */
  predicate IdsFit(sharders: seq<Sharder>, noShards: nat, columns: seq<string>, source: Table)
    requires Rectangular(columns, source)
  {
    ChoiceIsFirst(sharders, columns, 0);
    match Choice(sharders, columns, 0)
    case None => true
    case Some((s, c)) =>
      var ids := Ids(sharders[s], source, c);
      forall row :: 0 <= row < |ids| ==> ids[row].None? || Valid(ids[row], noShards)
  }

  class OneToMany {
    const sharders: seq<Sharder>
    const noShards: nat
    var outPorts: seq<Table>
    var done: bool

    constructor (sharders: seq<Sharder>, noShards: nat)
      ensures this.sharders == sharders && this.noShards == noShards && !done && |outPorts| == noShards
    {
      this.sharders, this.noShards, done := sharders, noShards, false;
      outPorts := seq(noShards, i => []);
    }

    method FindKeyColumn(s: Sharder, columns: seq<string>) returns (r: Option<nat>)
      ensures r == KeyColumn(s, columns, 0)
    {
      for idx := 0 to |columns|
        invariant KeyColumn(s, columns, 0) == KeyColumn(s, columns, idx)
      {
        if s.matches(columns[idx]) {
          return Some(idx);
        }
      }
      r := None;
    }

    method FindShardColIndex(columns: seq<string>) returns (r: Option<(nat, nat)>)
      ensures r == Choice(sharders, columns, 0)
    {
      for idx := 0 to |sharders|
        invariant Choice(sharders, columns, 0) == Choice(sharders, columns, idx)
      {
        var column := FindKeyColumn(sharders[idx], columns);
        if column.Some? {
          return Some((idx, column.value));
        }
      }
      r := None;
    }

    /** The row numbers per shard, collected in one pass over the source. */
    method Offsets(sharder: Sharder, column: nat, source: Table) returns (offsets: seq<seq<nat>>)
      requires forall row :: 0 <= row < |source| ==> column < |source[row]|
      requires forall row :: 0 <= row < |source| ==>
        sharder.shardOf(source[row][column]).None? || Valid(sharder.shardOf(source[row][column]), noShards)
      ensures |offsets| == noShards
      ensures forall i :: 0 <= i < noShards ==> offsets[i] == Members(Ids(sharder, source, column), i + 1, |source|)
    {
      ghost var ids := Ids(sharder, source, column);
      offsets := seq(noShards, i => []);
      for row := 0 to |source|
        invariant |offsets| == noShards
        invariant forall i :: 0 <= i < noShards ==> offsets[i] == Members(ids, i + 1, row)
      {
        var shardId := sharder.shardOf(source[row][column]);
        if shardId.Some? {
          offsets := offsets[shardId.value - 1 := offsets[shardId.value - 1] + [row]];
        }
      }
    }

    method Process(columns: seq<string>, source: Table)
      requires Rectangular(columns, source) && IdsFit(sharders, noShards, columns, source) && |outPorts| == noShards
      modifies this
      ensures outPorts == Ports(sharders, noShards, columns, source) && done
    {
      var s := FindShardColIndex(columns);
      ChoiceIsFirst(sharders, columns, 0);
      if s.None? {
        for idx := 0 to noShards
          invariant |outPorts| == noShards && forall i :: 0 <= i < idx ==> outPorts[i] == source
        {
          outPorts := outPorts[idx := source];
        }
      } else {
        var (sharder, shardKeyIdx) := s.value;
        ghost var ids := Ids(sharders[sharder], source, shardKeyIdx);
        assert forall row :: 0 <= row < |source| ==> ids[row] == sharders[sharder].shardOf(source[row][shardKeyIdx]);
        var offsets := Offsets(sharders[sharder], shardKeyIdx, source);
        for idx := 0 to noShards
          invariant |outPorts| == noShards
          invariant forall i :: 0 <= i < idx ==> outPorts[i] == Views.Pick(source, Members(ids, i + 1, |source|))
        {
          outPorts := outPorts[idx := Views.Pick(source, offsets[idx])];
        }
        assert outPorts == Shards(source, ids, |source|, noShards);
      }
      done := true;
    }
  }

  lemma {:induction false} JoinedRectangular(columns: seq<seq<string>>, inPorts: seq<Table>)
    requires |columns| == |inPorts| > 0 && forall i :: 0 <= i < |inPorts| ==> Rectangular(columns[i], inPorts[i])
    requires forall i :: 0 <= i < |columns| ==> |columns[i]| == |columns[0]|
    ensures Rectangular(columns[0], Flatten(inPorts))
  {
    var n := |inPorts| - 1;
    if n > 0 {
      JoinedRectangular(columns[..n], inPorts[..n]);
    }
  }

  class ManyToOne {
    var outColumns: seq<string>
    var outPort: Table

    /** The join asserts that there are sources and that they have as many columns each; it takes the first one's. */
    method Process(columns: seq<seq<string>>, inPorts: seq<Table>)
      requires |columns| == |inPorts| > 0 && forall i :: 0 <= i < |inPorts| ==> Rectangular(columns[i], inPorts[i])
      requires forall i :: 0 <= i < |columns| ==> |columns[i]| == |columns[0]|
      modifies this
      ensures outColumns == columns[0] && outPort == Flatten(inPorts) && Rectangular(outColumns, outPort)
    {
      var sources := [];
      for i := 0 to |inPorts|
        invariant sources == inPorts[..i]
      {
        sources := sources + [inPorts[i]];
      }
      assert sources == inPorts;
      JoinedRectangular(columns, inPorts);
      outColumns, outPort := columns[0], Flatten(sources);
    }
  }

  /** Splitting and joining again is a permutation exactly when no key is dropped, which the sharder can tell. */
  lemma SplitJoin(sharders: seq<Sharder>, noShards: nat, columns: seq<string>, source: Table)
    requires Rectangular(columns, source) && IdsFit(sharders, noShards, columns, source)
    requires Choice(sharders, columns, 0).Some?
    ensures var (s, c) := Choice(sharders, columns, 0).value;
      && s < |sharders| && c < |columns|
      && (multiset(Flatten(Ports(sharders, noShards, columns, source))) == multiset(source)
            <==> forall row :: 0 <= row < |source| ==> sharders[s].shardOf(source[row][c]).Some?)
  {
    ChoiceIsFirst(sharders, columns, 0);
    var (s, c) := Choice(sharders, columns, 0).value;
    var ids := Ids(sharders[s], source, c);
    var kept := Kept(source, ids, |source|, noShards);
    ShardsConserve(source, ids, |source|, noShards);
    KeptAll(source, ids, |source|, noShards);
    assert source[..|source|] == source;
    KeptCount(source, ids, |source|, noShards);
    if multiset(kept) == multiset(source) {
      forall row | 0 <= row < |source| ensures sharders[s].shardOf(source[row][c]).Some? {
        assert Valid(ids[row], noShards);
      }
    }
    if forall row :: 0 <= row < |source| ==> sharders[s].shardOf(source[row][c]).Some? {
      assert forall row :: 0 <= row < |source| ==> Valid(ids[row], noShards);
    }
  }

  lemma {:induction false} KeptCount(source: Table, ids: seq<Option<int>>, n: nat, p: nat)
    requires n <= |ids| == |source|
    ensures |Kept(source, ids, n, p)| <= n
    ensures |Kept(source, ids, n, p)| == n <==> forall row :: 0 <= row < n ==> Valid(ids[row], p)
  {
    if n > 0 {
      KeptCount(source, ids, n - 1, p);
    }
  }
}
