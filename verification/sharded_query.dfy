/** Publishing rows to the shards (data-plane/feeds/feed_common.py) and asking only the shards that can
    hold an answer (control-api/app/query_router.py, control-api/app/routers/query.py). */
module ShardedQuery {
  import opened Common
  import opened Text
  import opened Topology

  /** A published row; the generator stamps the shard id on it as its last field. */
  datatype Row = Row(sym: string, values: seq<real>, shard: string)

  // ------------------------------------------------------------------ publishing

  /** The rows stamped with one shard id, in their order. */
  function WithTag(rows: seq<Row>, id: string): seq<Row> {
    if rows == [] then [] else (if rows[0].shard == id then [rows[0]] else []) + WithTag(rows[1..], id)
  }

  lemma {:induction false} WithTagAppend(a: seq<Row>, b: seq<Row>, id: string)
    ensures WithTag(a + b, id) == WithTag(a, id) + WithTag(b, id)
  {
    if a == [] {
      assert a + b == b;
    } else {
      assert (a + b)[0] == a[0] && (a + b)[1..] == a[1..] + b;
      WithTagAppend(a[1..], b, id);
    }
  }

  lemma {:induction false} WithTagSnoc(rows: seq<Row>, i: nat, id: string)
    requires i < |rows|
    ensures WithTag(rows[..i + 1], id) == WithTag(rows[..i], id) + if rows[i].shard == id then [rows[i]] else []
  {
    assert rows[..i + 1] == rows[..i] + [rows[i]];
    WithTagAppend(rows[..i], [rows[i]], id);
  }

  predicate KnownTag(id: string, n: nat) {
    exists i :: 0 <= i < n && id == ShardId(i)
  }

  function EmptyStreams(n: nat): (m: map<string, seq<Row>>)
    ensures forall id :: id in m <==> KnownTag(id, n)
    ensures forall id :: id in m ==> m[id] == []
  {
    if n == 0 then map[] else EmptyStreams(n - 1)[ShardId(n - 1) := []]
  }

  /** The grouping loop: a dictionary from stamp to rows, with its keys in first-seen order. */
  method GroupByShard(rows: seq<Row>) returns (batches: map<string, seq<Row>>, order: seq<string>)
    ensures Distinct(order)
    ensures forall id :: id in batches <==> id in order
    ensures forall id :: WithTag(rows, id) == if id in batches then batches[id] else []
  {
    hide WithTag;
    batches, order := map[], [];
    WithTagNone();
    for i := 0 to |rows|
      invariant Distinct(order)
      invariant forall id :: id in batches <==> id in order
      invariant forall id :: WithTag(rows[..i], id) == if id in batches then batches[id] else []
    {
      var id := rows[i].shard;
      forall other {
        WithTagSnoc(rows, i, other);
      }
      if id !in batches {
        batches := batches[id := []];
        order := order + [id];
      }
      batches := batches[id := batches[id] + [rows[i]]];
    }
    assert rows[..|rows|] == rows;
  }

  lemma {:induction false} WithTagNone()
    ensures forall id :: WithTag([], id) == []
  {
  }

  /** One tickerplant connection per shard; `sent` is what each has been sent so far. */
  class ShardedPublisher {
    const n: nat
    var sent: map<string, seq<Row>>

    ghost predicate Valid()
      reads this
    {
      forall id :: id in sent <==> KnownTag(id, n)
    }

    /** The shards hold exactly these rows, each shard those stamped for it. */
    ghost predicate Holds(rows: seq<Row>)
      reads this
    {
      forall id :: id in sent ==> sent[id] == WithTag(rows, id)
    }

    constructor (n: nat)
      requires 1 <= n <= |AlphabetAZ|
      ensures Valid() && this.n == n && Holds([])
    {
      this.n := n;
      this.sent := EmptyStreams(n);
    }

    /** Every shard receives exactly the rows stamped for it, in their order, in one batch appended to
        what it had; rows stamped with an id outside the topology are dropped. */
    method PublishRows(rows: seq<Row>)
      requires Valid()
      modifies `sent
      ensures Valid() && sent.Keys == old(sent.Keys)
      ensures forall id :: id in sent ==> sent[id] == old(sent)[id] + WithTag(rows, id)
    {
      hide WithTag, KnownTag;
      var batches, order := GroupByShard(rows);
      for k := 0 to |order|
        invariant sent.Keys == old(sent.Keys)
        invariant forall id :: id in sent ==> sent[id] == old(sent)[id] + if id in order[..k] then batches[id] else []
      {
        var id := order[k];
        assert order[..k + 1] == order[..k] + [id];
        if id in sent {
          sent := sent[id := sent[id] + batches[id]];
        }
      }
      assert order[..|order|] == order;
    }
  }

  /** Publishing two batches is publishing their concatenation. */
  method PublishTwice(p: ShardedPublisher, a: seq<Row>, b: seq<Row>)
    requires p.Valid()
    modifies p`sent
    ensures p.Valid() && p.sent.Keys == old(p.sent.Keys)
    ensures forall id :: id in p.sent ==> p.sent[id] == old(p.sent)[id] + WithTag(a + b, id)
  {
    p.PublishRows(a);
    p.PublishRows(b);
    forall id {
      WithTagAppend(a, b, id);
    }
  }

  /** Draw the next row from the stream each tag names. */
  function Replay(tags: seq<string>, streams: map<string, seq<Row>>): seq<Row> {
    if tags == [] || tags[0] !in streams || streams[tags[0]] == [] then []
    else
      var id := tags[0];
      [streams[id][0]] + Replay(tags[1..], streams[id := streams[id][1..]])
  }

  function Tags(rows: seq<Row>): (tags: seq<string>)
    ensures |tags| == |rows|
  {
    seq(|rows|, i requires 0 <= i < |rows| => rows[i].shard)
  }

  lemma {:induction false} DrawOne(rows: seq<Row>, streams: map<string, seq<Row>>)
    requires rows != [] && rows[0].shard in streams
    requires forall id :: id in streams ==> streams[id] == WithTag(rows, id)
    ensures var id := rows[0].shard;
            && streams[id] != [] && streams[id][0] == rows[0]
            && forall other :: other in streams
                 ==> streams[id := streams[id][1..]][other] == WithTag(rows[1..], other)
  {
    var id := rows[0].shard;
    assert streams[id] == [rows[0]] + WithTag(rows[1..], id);
  }

  /** No row is lost, duplicated or reordered within its shard: the shards' streams, drawn in the order
      of the stamps, give the published rows back. */
  lemma {:induction false} StreamsReplayTheRows(rows: seq<Row>, streams: map<string, seq<Row>>)
    requires forall r :: r in rows ==> r.shard in streams
    requires forall id :: id in streams ==> streams[id] == WithTag(rows, id)
    ensures Replay(Tags(rows), streams) == rows
  {
    if rows != [] {
      var id := rows[0].shard;
      assert rows[0] in rows;
      DrawOne(rows, streams);
      assert Tags(rows)[1..] == Tags(rows[1..]);
      hide WithTag;
      StreamsReplayTheRows(rows[1..], streams[id := streams[id][1..]]);
      assert rows == [rows[0]] + rows[1..];
    }
  }

  // ------------------------------------------------------------------ queries

  /** One entry of a symbol filter: a literal the router can read, or an expression it cannot, whose
      value is known only where the query runs. */
  datatype Term = Literal(sym: string) | Computed(name: string)

  type Env = map<string, string>

  datatype Clause = SymIn(terms: seq<Term>) | Where(test: Row -> bool)

  function Value(t: Term, env: Env): string {
    match t
    case Literal(s) => s
    case Computed(x) => if x in env then env[x] else ""
  }

  predicate Holds(c: Clause, env: Env, r: Row) {
    match c
    case SymIn(terms) => exists k :: 0 <= k < |terms| && Value(terms[k], env) == r.sym
    case Where(test) => test(r)
  }

  predicate Matches(q: seq<Clause>, env: Env, r: Row) {
    forall k :: 0 <= k < |q| ==> Holds(q[k], env, r)
  }

  function Select(q: seq<Clause>, env: Env, rows: seq<Row>): (a: seq<Row>)
    ensures forall r :: r in a ==> r in rows && Matches(q, env, r)
  {
    if rows == [] then []
    else (if Matches(q, env, rows[0]) then [rows[0]] else []) + Select(q, env, rows[1..])
  }

  /** A row is kept or left out by itself. */
  lemma {:induction false} SelectOne(q: seq<Clause>, env: Env, r: Row, rest: seq<Row>)
    ensures Select(q, env, [r] + rest) == (if Matches(q, env, r) then [r] else []) + Select(q, env, rest)
  {
    hide Matches;
    assert ([r] + rest)[1..] == rest;
  }

  /** The rows kept stay in order. */
  lemma {:induction false} SelectAppend(q: seq<Clause>, env: Env, a: seq<Row>, b: seq<Row>)
    ensures Select(q, env, a + b) == Select(q, env, a) + Select(q, env, b)
    decreases |a|
  {
    hide *;
    if a == [] {
      assert a + b == b;
      SelectNone(q, env);
    } else {
      var (r, rest) := (a[0], a[1..]);
      assert a == [r] + rest && a + b == [r] + (rest + b);
      SelectAppend(q, env, rest, b);
      SelectOne(q, env, r, rest);
      SelectOne(q, env, r, rest + b);
    }
  }

  /** Scatter to the given shards and gather in that order. */
  function Answer(q: seq<Clause>, env: Env, stores: seq<seq<Row>>, ids: seq<nat>): seq<Row>
    requires forall k :: 0 <= k < |ids| ==> ids[k] < |stores|
  {
    if ids == [] then [] else Select(q, env, stores[ids[0]]) + Answer(q, env, stores, ids[1..])
  }

  // ------------------------------------------------------------------ the router

  function LiteralsOf(c: Clause): set<string> {
    match c
    case SymIn(terms) => set k | 0 <= k < |terms| && terms[k].Literal? :: terms[k].sym
    case Where(_) => {}
  }

  function Literals(q: seq<Clause>): set<string> {
    if q == [] then {} else LiteralsOf(q[0]) + Literals(q[1..])
  }

  lemma {:induction false} LiteralsIff(q: seq<Clause>, s: string)
    ensures s in Literals(q) <==> exists k :: 0 <= k < |q| && s in LiteralsOf(q[k])
  {
    if q != [] {
      LiteralsIff(q[1..], s);
      if s in LiteralsOf(q[0]) {
        assert s in LiteralsOf(q[0]);
      } else if s in Literals(q[1..]) {
        var k :| 0 <= k < |q[1..]| && s in LiteralsOf(q[1..][k]);
        assert s in LiteralsOf(q[k + 1]);
      }
      forall k | 0 <= k < |q| && s in LiteralsOf(q[k])
        ensures s in Literals(q)
      {
        if k > 0 {
          assert q[1..][k - 1] == q[k];
        }
      }
    }
  }

  /** Python's order on strings. */
  predicate LexLess(a: string, b: string) {
    b != [] && (a == [] || a[0] < b[0] || (a[0] == b[0] && LexLess(a[1..], b[1..])))
  }

  function Insert(ids: seq<nat>, i: nat): seq<nat> {
    if ids == [] then [i]
    else if LexLess(ShardId(i), ShardId(ids[0])) then [i] + ids
    else [ids[0]] + Insert(ids[1..], i)
  }

  /** The owners below `k`, sorted as the strings `s0`, `s1`, ... are. */
  function SortedIds(owners: set<nat>, k: nat): seq<nat> {
    if k == 0 then []
    else if k - 1 in owners then Insert(SortedIds(owners, k - 1), k - 1)
    else SortedIds(owners, k - 1)
  }

  /** The owners below `k` in shard order. */
  function Ascending(owners: set<nat>, k: nat): seq<nat> {
    if k == 0 then []
    else if k - 1 in owners then Ascending(owners, k - 1) + [k - 1]
    else Ascending(owners, k - 1)
  }

  function Owners(alphabet: string, syms: set<string>, n: nat): set<nat>
    requires 1 <= n <= |alphabet|
  {
    set s | s in syms :: ShardOf(alphabet, s, n)
  }

  function UpTo(n: nat): (s: set<nat>)
    ensures forall i :: i in s <==> 0 <= i < n
  {
    if n == 0 then {} else UpTo(n - 1) + {n - 1}
  }

  /** Every shard, in order: the fan-out when the router gives up. */
  function AllShards(n: nat): seq<nat> {
    Ascending(UpTo(n), n)
  }

  /** The owners of the symbols read from a query, or None when none was read. */
  function RouteShards(alphabet: string, syms: set<string>, n: nat): Option<seq<nat>>
    requires 1 <= n <= |alphabet|
  {
    if syms == {} then None else Some(SortedIds(Owners(alphabet, syms, n), n))
  }

  /** The shards the gateway asks for the symbols read. */
  function AskedFor(alphabet: string, syms: set<string>, n: nat): seq<nat>
    requires 1 <= n <= |alphabet|
  {
    var routed := RouteShards(alphabet, syms, n);
    if routed.Some? && routed.value != [] then routed.value else AllShards(n)
  }

  /** The shards the gateway asks when it reads every literal of the query. */
  function Asked(alphabet: string, q: seq<Clause>, n: nat): seq<nat>
    requires 1 <= n <= |alphabet|
  {
    AskedFor(alphabet, Literals(q), n)
  }

  lemma {:induction false} InsertAdds(ids: seq<nat>, i: nat)
    ensures multiset(Insert(ids, i)) == multiset(ids) + multiset{i}
  {
    hide LexLess, ShardId;
    if ids != [] {
      assert ids == [ids[0]] + ids[1..];
      InsertAdds(ids[1..], i);
    }
  }

  /** Sorting by name and listing in shard order hold the same shards, each once. */
  lemma {:induction false} SortedIdsArePermutation(owners: set<nat>, k: nat)
    ensures multiset(SortedIds(owners, k)) == multiset(Ascending(owners, k))
  {
    hide Insert, LexLess, ShardId;
    if k > 0 {
      SortedIdsArePermutation(owners, k - 1);
      InsertAdds(SortedIds(owners, k - 1), k - 1);
    }
  }

  lemma {:induction false} AscendingHolds(owners: set<nat>, k: nat, i: nat)
    ensures i in Ascending(owners, k) <==> i < k && i in owners
  {
    if k > 0 {
      AscendingHolds(owners, k - 1, i);
    }
  }

  lemma {:induction false} SortedIdsHold(owners: set<nat>, k: nat, i: nat)
    ensures i in SortedIds(owners, k) <==> i < k && i in owners
  {
    SortedIdsArePermutation(owners, k);
    AscendingHolds(owners, k, i);
    assert i in SortedIds(owners, k) <==> i in multiset(SortedIds(owners, k));
    assert i in Ascending(owners, k) <==> i in multiset(Ascending(owners, k));
  }

  lemma {:induction false} AskedForIff(alphabet: string, syms: set<string>, n: nat, i: nat)
    requires 1 <= n <= |alphabet|
    ensures i in AskedFor(alphabet, syms, n) <==> i < n && (syms == {} || i in Owners(alphabet, syms, n))
  {
    var owners := Owners(alphabet, syms, n);
    AscendingHolds(UpTo(n), n, i);
    SortedIdsHold(owners, n, i);
    if syms != {} {
      var s :| s in syms;
      SortedIdsHold(owners, n, ShardOf(alphabet, s, n));
    }
  }

  lemma {:induction false} AskedIff(alphabet: string, q: seq<Clause>, n: nat, i: nat)
    requires 1 <= n <= |alphabet|
    ensures i in Asked(alphabet, q, n)
        <==> i < n && (Literals(q) == {} || i in Owners(alphabet, Literals(q), n))
  {
    AskedForIff(alphabet, Literals(q), n, i);
  }

  // ------------------------------------------------------------------ narrowing is safe

  /** Some symbol clause is spelled out in full. */
  predicate Confident(q: seq<Clause>) {
    exists k :: 0 <= k < |q| && AllLiteral(q[k])
  }

  predicate AllLiteral(c: Clause) {
    c.SymIn? && forall j :: 0 <= j < |c.terms| ==> c.terms[j].Literal?
  }

  /** A row the query selects is owned by a shard the gateway asks: its symbol is one of the literals. */
  lemma {:induction false} ConfidentMissesNothing(alphabet: string, q: seq<Clause>, n: nat, env: Env, r: Row)
    requires 1 <= n <= |alphabet| && (Confident(q) || Literals(q) == {}) && Matches(q, env, r)
    ensures ShardOf(alphabet, r.sym, n) in Asked(alphabet, q, n)
  {
    AskedIff(alphabet, q, n, ShardOf(alphabet, r.sym, n));
    if Literals(q) != {} {
      var k :| 0 <= k < |q| && AllLiteral(q[k]);
      assert Holds(q[k], env, r);
      var j :| 0 <= j < |q[k].terms| && Value(q[k].terms[j], env) == r.sym;
      assert r.sym in LiteralsOf(q[k]);
      LiteralsIff(q, r.sym);
    }
  }

  /** No row the query selects, whatever the computed terms stand for, lies on a shard left out. */
  ghost predicate NarrowingSafe(alphabet: string, q: seq<Clause>, n: nat)
    requires 1 <= n <= |alphabet|
  {
    forall env: Env, r: Row :: Matches(q, env, r) ==> ShardOf(alphabet, r.sym, n) in Asked(alphabet, q, n)
  }

  ghost predicate OwnsLiteral(alphabet: string, q: seq<Clause>, n: nat, i: nat)
    requires 1 <= n <= |alphabet|
  {
    exists s :: s in Literals(q) && ShardOf(alphabet, s, n) == i
  }

  /** Every shard owns some literal of the query. */
  ghost predicate LiteralsEverywhere(alphabet: string, q: seq<Clause>, n: nat)
    requires 1 <= n <= |alphabet|
  {
    forall i: nat | i < n :: OwnsLiteral(alphabet, q, n, i)
  }

  function Names(c: Clause): set<string> {
    match c
    case SymIn(terms) => set k | 0 <= k < |terms| && terms[k].Computed? :: terms[k].name
    case Where(_) => {}
  }

  function AllNames(q: seq<Clause>): (names: set<string>)
    ensures forall k :: 0 <= k < |q| ==> Names(q[k]) <= names
  {
    if q == [] then {}
    else
      var rest := AllNames(q[1..]);
      assert forall k :: 1 <= k < |q| ==> q[k] == q[1..][k - 1];
      Names(q[0]) + rest
  }

  /** Where every clause has a computed term, the terms may all stand for one given symbol. */
  lemma {:induction false} ComputedMayStandFor(q: seq<Clause>, r: Row) returns (env: Env)
    requires forall k :: 0 <= k < |q| ==> q[k].SymIn? && !AllLiteral(q[k])
    ensures Matches(q, env, r)
  {
    env := map x | x in AllNames(q) :: r.sym;
    forall k | 0 <= k < |q|
      ensures Holds(q[k], env, r)
    {
      var j :| 0 <= j < |q[k].terms| && !q[k].terms[j].Literal?;
      assert q[k].terms[j].name in Names(q[k]);
      assert Value(q[k].terms[j], env) == r.sym;
    }
  }

  /** Exactly when the router is safe for a query on symbols alone: when one clause is spelled out, when
      the query has no literal, or when its literals reach every shard. A list that mixes a literal with a computed term is read as the literal alone,
      and rows of the computed symbol are lost. */
  lemma {:induction false} NarrowingSafeIff(alphabet: string, q: seq<Clause>, n: nat)
    requires Increasing(alphabet) && 1 <= n <= |alphabet|
    requires forall c :: c in alphabet ==> Upper(c) == c
    requires forall k :: 0 <= k < |q| ==> q[k].SymIn?
    ensures NarrowingSafe(alphabet, q, n)
       <==> Confident(q) || Literals(q) == {} || LiteralsEverywhere(alphabet, q, n)
  {
    hide ShardOf, Asked, Literals, Matches;
    if Confident(q) || Literals(q) == {} {
      forall env: Env, r: Row | Matches(q, env, r)
        ensures ShardOf(alphabet, r.sym, n) in Asked(alphabet, q, n)
      {
        ConfidentMissesNothing(alphabet, q, n, env, r);
      }
    } else if LiteralsEverywhere(alphabet, q, n) {
      forall env: Env, r: Row | Matches(q, env, r)
        ensures ShardOf(alphabet, r.sym, n) in Asked(alphabet, q, n)
      {
        var i := ShardOf(alphabet, r.sym, n);
        assert OwnsLiteral(alphabet, q, n, i);
        AskedIff(alphabet, q, n, i);
      }
    } else {
      var i: nat :| i < n && !OwnsLiteral(alphabet, q, n, i);
      var sym := EveryShardOwnsSomething(alphabet, n, i);
      var r := Row(sym, [], ShardId(i));
      var env := ComputedMayStandFor(q, r);
      AskedIff(alphabet, q, n, i);
      assert Matches(q, env, r) && ShardOf(alphabet, r.sym, n) !in Asked(alphabet, q, n);
    }
  }

  lemma {:induction false} OwnersOfTheTwo()
    ensures ShardOf(AlphabetAZ, "ZM", 2) == 1 && ShardOf(AlphabetAZ, "AAPL", 2) == 0
  {
    AlphabetAZIncreasing();
    TwoShardsAreAMandNZ();
    assert FirstLetter(AlphabetAZ, "ZM") == Some('Z') && FirstLetter(AlphabetAZ, "AAPL") == Some('A');
    ShardOfIffRange(AlphabetAZ, "ZM", 2, 1);
    ShardOfIffRange(AlphabetAZ, "AAPL", 2, 0);
  }

  lemma {:induction false} LiteralsOfMixed(s: string, x: string)
    ensures Literals([SymIn([Literal(s), Computed(x)])]) == {s}
  {
    var q := [SymIn([Literal(s), Computed(x)])];
    assert LiteralsOf(q[0]) == {s} by {
      assert q[0].terms[0].sym == s;
    }
    assert q[1..] == [];
  }

  /** The smallest such query: one literal and one computed symbol, over two shards of A-Z. */
  lemma {:induction false} MixedListLosesRows()
    ensures var q := [SymIn([Literal("AAPL"), Computed("x")])];
            var r := Row("ZM", [], "s1");
            && Matches(q, map["x" := "ZM"], r)
            && ShardOf(AlphabetAZ, r.sym, 2) !in Asked(AlphabetAZ, q, 2)
  {
    hide ShardOf, Asked, Literals, LiteralsOf;
    var q := [SymIn([Literal("AAPL"), Computed("x")])];
    assert Value(q[0].terms[1], map["x" := "ZM"]) == "ZM";
    OwnersOfTheTwo();
    LiteralsOfMixed("AAPL", "x");
    AskedIff(AlphabetAZ, q, 2, 1);
  }

  // ------------------------------------------------------------------ the same answer

  /** Every row lies on the shard that owns its symbol. */
  ghost predicate Placed(alphabet: string, stores: seq<seq<Row>>)
    requires 1 <= |stores| <= |alphabet|
  {
    forall i, r :: 0 <= i < |stores| && r in stores[i] ==> ShardOf(alphabet, r.sym, |stores|) == i
  }

  lemma {:induction false} SkippedShardIsSilent(alphabet: string, q: seq<Clause>, env: Env, stores: seq<seq<Row>>, i: nat)
    requires 1 <= |stores| <= |alphabet| && Placed(alphabet, stores) && i < |stores|
    requires Confident(q) || Literals(q) == {}
    requires i !in Asked(alphabet, q, |stores|)
    ensures Select(q, env, stores[i]) == []
  {
    var a := Select(q, env, stores[i]);
    if a != [] {
      assert a[0] in a;
      ConfidentMissesNothing(alphabet, q, |stores|, env, a[0]);
    }
  }

  ghost predicate Within(ids: seq<nat>, n: nat) {
    forall k :: 0 <= k < |ids| ==> ids[k] < n
  }

  lemma {:induction false} AscendingWithin(owners: set<nat>, k: nat)
    ensures Within(Ascending(owners, k), k) && Within(SortedIds(owners, k), k)
  {
    var ascending, sorted := Ascending(owners, k), SortedIds(owners, k);
    forall j | 0 <= j < |ascending|
      ensures ascending[j] < k
    {
      AscendingHolds(owners, k, ascending[j]);
    }
    forall j | 0 <= j < |sorted|
      ensures sorted[j] < k
    {
      SortedIdsHold(owners, k, sorted[j]);
    }
  }

  lemma {:induction false} AskedWithin(alphabet: string, q: seq<Clause>, n: nat)
    requires 1 <= n <= |alphabet|
    ensures Within(Asked(alphabet, q, n), n) && Within(AllShards(n), n)
  {
    AscendingWithin(Owners(alphabet, Literals(q), n), n);
    AscendingWithin(UpTo(n), n);
  }

  lemma {:induction false} AnswerSnoc(q: seq<Clause>, env: Env, stores: seq<seq<Row>>, ids: seq<nat>, i: nat)
    requires Within(ids, |stores|) && i < |stores|
    ensures Answer(q, env, stores, ids + [i]) == Answer(q, env, stores, ids) + Select(q, env, stores[i])
  {
    hide Select;
    if ids == [] {
      assert (ids + [i])[1..] == [];
    } else {
      assert (ids + [i])[0] == ids[0] && (ids + [i])[1..] == ids[1..] + [i];
      AnswerSnoc(q, env, stores, ids[1..], i);
    }
  }

  /** Silent shards can be left out of an ordered fan-out without changing the answer. */
  lemma {:induction false} DropSilent(q: seq<Clause>, env: Env, stores: seq<seq<Row>>, all: set<nat>, some: set<nat>, k: nat)
    requires some <= all && k <= |stores|
    requires forall i :: i in all && i !in some && i < k ==> Select(q, env, stores[i]) == []
    ensures Within(Ascending(all, k), |stores|) && Within(Ascending(some, k), |stores|)
    ensures Answer(q, env, stores, Ascending(all, k)) == Answer(q, env, stores, Ascending(some, k))
  {
    hide Select, Answer;
    AscendingWithin(all, k);
    AscendingWithin(some, k);
    if k > 0 {
      DropSilent(q, env, stores, all, some, k - 1);
      AscendingWithin(all, k - 1);
      AscendingWithin(some, k - 1);
      AnswerSnoc(q, env, stores, Ascending(all, k - 1), k - 1);
      AnswerSnoc(q, env, stores, Ascending(some, k - 1), k - 1);
    }
  }

  lemma {:induction false} FirstOccurs(a: seq<nat>, b: seq<nat>) returns (k: nat)
    requires a != [] && multiset(a) == multiset(b)
    ensures k < |b| && b[k] == a[0] && multiset(a[1..]) == multiset(b[..k] + b[k + 1..])
  {
    k := Occurs(a[0], a, b);
    FrontOut(a);
    PullOut(b, k);
    SumCancels(a[0], multiset(a[1..]), multiset(b[..k] + b[k + 1..]));
  }

  lemma {:induction false} Occurs(x: nat, a: seq<nat>, b: seq<nat>) returns (k: nat)
    requires x in a && multiset(a) == multiset(b)
    ensures k < |b| && b[k] == x
  {
    assert x in multiset(a);
    assert x in multiset(b);
    k :| 0 <= k < |b| && b[k] == x;
  }

  lemma {:induction false} FrontOut(a: seq<nat>)
    requires a != []
    ensures multiset(a) == multiset{a[0]} + multiset(a[1..])
  {
    assert a == [a[0]] + a[1..];
  }

  lemma {:induction false} PullOut(b: seq<nat>, k: nat)
    requires k < |b|
    ensures multiset(b) == multiset{b[k]} + multiset(b[..k] + b[k + 1..])
  {
    var rest := [b[k]] + b[k + 1..];
    assert b == b[..k] + rest;
  }

  lemma {:induction false} SumCancels(x: nat, m: multiset<nat>, n: multiset<nat>)
    requires multiset{x} + m == multiset{x} + n
    ensures m == n
  {
    assert m == (multiset{x} + m) - multiset{x};
    assert n == (multiset{x} + n) - multiset{x};
  }

  /** Gathering in another order gives the same rows, each as often. */
  lemma {:induction false} AnswerPermutes(q: seq<Clause>, env: Env, stores: seq<seq<Row>>, a: seq<nat>, b: seq<nat>)
    requires Within(a, |stores|) && Within(b, |stores|) && multiset(a) == multiset(b)
    ensures multiset(Answer(q, env, stores, a)) == multiset(Answer(q, env, stores, b))
    decreases |a|
  {
    hide Select;
    if a == [] {
      assert |multiset(b)| == 0;
    } else {
      var k := FirstOccurs(a, b);
      var rest := b[..k] + b[k + 1..];
      AnswerPermutes(q, env, stores, a[1..], rest);
      AnswerPull(q, env, stores, b, k);
    }
  }

  lemma {:induction false} AnswerPull(q: seq<Clause>, env: Env, stores: seq<seq<Row>>, b: seq<nat>, k: nat)
    requires Within(b, |stores|) && k < |b|
    ensures multiset(Answer(q, env, stores, b))
         == multiset(Select(q, env, stores[b[k]])) + multiset(Answer(q, env, stores, b[..k] + b[k + 1..]))
  {
    var rest := b[..k] + b[k + 1..];
    if k == 0 {
      assert rest == b[1..];
    } else {
      assert rest[0] == b[0] && rest[1..] == b[1..][..k - 1] + b[1..][k..];
      AnswerPull(q, env, stores, b[1..], k - 1);
    }
  }

  /** The narrowed fan-out returns the rows of the full one, each as often. */
  lemma {:induction false} NarrowingKeepsAnswer(alphabet: string, q: seq<Clause>, env: Env, stores: seq<seq<Row>>)
    requires 1 <= |stores| <= |alphabet| && Placed(alphabet, stores)
    requires Confident(q) || Literals(q) == {}
    ensures Within(Asked(alphabet, q, |stores|), |stores|) && Within(AllShards(|stores|), |stores|)
    ensures multiset(Answer(q, env, stores, Asked(alphabet, q, |stores|)))
         == multiset(Answer(q, env, stores, AllShards(|stores|)))
  {
    var n := |stores|;
    AskedWithin(alphabet, q, n);
    if Literals(q) != {} {
      NarrowedInOrder(alphabet, q, env, stores);
      var owners := Owners(alphabet, Literals(q), n);
      SortedIdsArePermutation(owners, n);
      AscendingWithin(owners, n);
      AskedIsSorted(alphabet, q, n);
      AnswerPermutes(q, env, stores, SortedIds(owners, n), Ascending(owners, n));
    }
  }

  lemma {:induction false} AskedIsSorted(alphabet: string, q: seq<Clause>, n: nat)
    requires 1 <= n <= |alphabet| && Literals(q) != {}
    ensures Asked(alphabet, q, n) == SortedIds(Owners(alphabet, Literals(q), n), n)
  {
    var s :| s in Literals(q);
    SortedIdsHold(Owners(alphabet, Literals(q), n), n, ShardOf(alphabet, s, n));
  }

  lemma {:induction false} NarrowedInOrder(alphabet: string, q: seq<Clause>, env: Env, stores: seq<seq<Row>>)
    requires 1 <= |stores| <= |alphabet| && Placed(alphabet, stores)
    requires Confident(q) && Literals(q) != {}
    ensures var owners := Owners(alphabet, Literals(q), |stores|);
            && Within(Ascending(owners, |stores|), |stores|) && Within(AllShards(|stores|), |stores|)
            && Answer(q, env, stores, Ascending(owners, |stores|)) == Answer(q, env, stores, AllShards(|stores|))
  {
    var n := |stores|;
    var owners := Owners(alphabet, Literals(q), n);
    var all := UpTo(n);
    forall i | i in all && i !in owners && i < n
      ensures Select(q, env, stores[i]) == []
    {
      AskedIff(alphabet, q, n, i);
      SkippedShardIsSilent(alphabet, q, env, stores, i);
    }
    DropSilent(q, env, stores, all, owners, n);
  }

  // ------------------------------------------------------------------ published, then queried

  /** Rows stamped by the generator with their owner's id. */
  ghost predicate Stamped(alphabet: string, n: nat, rows: seq<Row>)
    requires 1 <= n <= |alphabet|
  {
    forall r :: r in rows ==> r.shard == ShardId(ShardOf(alphabet, r.sym, n))
  }

  function Stores(rows: seq<Row>, n: nat): (stores: seq<seq<Row>>)
    ensures |stores| == n
  {
    seq(n, i requires 0 <= i < n => WithTag(rows, ShardId(i)))
  }

  lemma {:induction false} WithTagMembers(rows: seq<Row>, id: string, r: Row)
    ensures r in WithTag(rows, id) <==> r in rows && r.shard == id
  {
    if rows != [] {
      WithTagMembers(rows[1..], id, r);
    }
  }

  lemma {:induction false} ShardIdInjective(i: nat, j: nat)
    requires ShardId(i) == ShardId(j)
    ensures i == j
  {
    assert ShardId(i)[1..] == Decimal(i) && ShardId(j)[1..] == Decimal(j);
    DecimalInjective(i, j);
  }

  lemma {:induction false} StoresArePlaced(alphabet: string, rows: seq<Row>, n: nat)
    requires 1 <= n <= |alphabet| && Stamped(alphabet, n, rows)
    ensures Placed(alphabet, Stores(rows, n))
  {
    forall i, r | 0 <= i < n && r in Stores(rows, n)[i]
      ensures ShardOf(alphabet, r.sym, n) == i
    {
      WithTagMembers(rows, ShardId(i), r);
      ShardIdInjective(i, ShardOf(alphabet, r.sym, n));
    }
  }

  function Below(rows: seq<Row>, k: nat): seq<Row> {
    if rows == [] then []
    else (if KnownTag(rows[0].shard, k) then [rows[0]] else []) + Below(rows[1..], k)
  }

  /** Adding one more shard adds exactly the selected rows stamped for it. */
  lemma {:induction false} BelowGrows(q: seq<Clause>, env: Env, rows: seq<Row>, k: nat)
    ensures multiset(Select(q, env, Below(rows, k + 1)))
         == multiset(Select(q, env, Below(rows, k))) + multiset(Select(q, env, WithTag(rows, ShardId(k))))
  {
    hide Picked, ShardId, KnownTag, Select, Below, WithTag;
    if rows == [] {
      NothingBelow(k);
      SelectNone(q, env);
    } else {
      var r, rest := rows[0], rows[1..];
      BelowGrows(q, env, rest, k);
      KnownTagGrows(r.shard, k);
      SelectedBelow(q, env, rows, k + 1);
      SelectedBelow(q, env, rows, k);
      SelectedTag(q, env, rows, ShardId(k));
    }
  }

  lemma {:induction false} NothingBelow(k: nat)
    ensures Below([], k) == Below([], k + 1) == WithTag([], ShardId(k)) == []
  {
  }

  lemma {:induction false} SelectedBelow(q: seq<Clause>, env: Env, rows: seq<Row>, k: nat)
    requires rows != []
    ensures multiset(Select(q, env, Below(rows, k)))
         == (if KnownTag(rows[0].shard, k) then Picked(q, env, rows[0]) else multiset{})
            + multiset(Select(q, env, Below(rows[1..], k)))
  {
    hide Picked, KnownTag, Select;
    SelectFront(q, env, rows[0], Below(rows[1..], k));
    assert [] + Below(rows[1..], k) == Below(rows[1..], k);
  }

  lemma {:induction false} SelectedTag(q: seq<Clause>, env: Env, rows: seq<Row>, id: string)
    requires rows != []
    ensures multiset(Select(q, env, WithTag(rows, id)))
         == (if rows[0].shard == id then Picked(q, env, rows[0]) else multiset{})
            + multiset(Select(q, env, WithTag(rows[1..], id)))
  {
    hide Picked, Select;
    SelectFront(q, env, rows[0], WithTag(rows[1..], id));
    assert [] + WithTag(rows[1..], id) == WithTag(rows[1..], id);
  }

  lemma {:induction false} SelectNone(q: seq<Clause>, env: Env)
    ensures Select(q, env, []) == []
  {
  }

  /** A stamp of the first `k + 1` shards is one of the first `k`, or the last one's, and not both. */
  lemma {:induction false} KnownTagGrows(id: string, k: nat)
    ensures KnownTag(id, k + 1) <==> KnownTag(id, k) || id == ShardId(k)
    ensures !(KnownTag(id, k) && id == ShardId(k))
  {
    if id == ShardId(k) && KnownTag(id, k) {
      var i :| 0 <= i < k && id == ShardId(i);
      ShardIdInjective(i, k);
    }
  }

  function Picked(q: seq<Clause>, env: Env, r: Row): multiset<Row> {
    if Matches(q, env, r) then multiset{r} else multiset{}
  }

  lemma {:induction false} SelectFront(q: seq<Clause>, env: Env, r: Row, rest: seq<Row>)
    ensures multiset(Select(q, env, [r] + rest)) == Picked(q, env, r) + multiset(Select(q, env, rest))
  {
    hide Matches;
    assert ([r] + rest)[1..] == rest;
  }

  /** What the first `k` shards return in order. */
  function FromFirst(q: seq<Clause>, env: Env, stores: seq<seq<Row>>, k: nat): seq<Row>
    requires k <= |stores|
  {
    AscendingWithin(UpTo(|stores|), k);
    Answer(q, env, stores, Ascending(UpTo(|stores|), k))
  }

  lemma {:induction false} OneMoreShard(q: seq<Clause>, env: Env, stores: seq<seq<Row>>, k: nat)
    requires 0 < k <= |stores|
    ensures FromFirst(q, env, stores, k) == FromFirst(q, env, stores, k - 1) + Select(q, env, stores[k - 1])
  {
    hide Select, Answer;
    var all := UpTo(|stores|);
    AscendingWithin(all, k);
    AscendingWithin(all, k - 1);
    AnswerSnoc(q, env, stores, Ascending(all, k - 1), k - 1);
  }

  lemma {:induction false} FromNone(q: seq<Clause>, env: Env, stores: seq<seq<Row>>)
    ensures FromFirst(q, env, stores, 0) == []
  {
  }

  lemma {:induction false} FirstShardsHoldBelow(q: seq<Clause>, env: Env, rows: seq<Row>, stores: seq<seq<Row>>, k: nat)
    requires k <= |stores| && forall i :: 0 <= i < |stores| ==> stores[i] == WithTag(rows, ShardId(i))
    ensures multiset(FromFirst(q, env, stores, k)) == multiset(Select(q, env, Below(rows, k)))
  {
    hide *;
    if k == 0 {
      SelectNone(q, env);
      BelowNone(rows);
      FromNone(q, env, stores);
    } else {
      FirstShardsHoldBelow(q, env, rows, stores, k - 1);
      OneMoreShard(q, env, stores, k);
      BelowGrows(q, env, rows, k - 1);
    }
  }

  lemma {:induction false} BelowNone(rows: seq<Row>)
    ensures Below(rows, 0) == []
  {
    if rows != [] {
      BelowNone(rows[1..]);
    }
  }

  lemma {:induction false} BelowAll(rows: seq<Row>, n: nat)
    requires forall r :: r in rows ==> KnownTag(r.shard, n)
    ensures Below(rows, n) == rows
  {
    if rows != [] {
      assert rows[0] in rows;
      BelowAll(rows[1..], n);
      assert rows == [rows[0]] + rows[1..];
    }
  }

  /** The main result: publish rows stamped by owner, then ask only the shards the router picks; the
      gathered rows are exactly the published rows the query selects. */
  lemma {:induction false} PublishedThenQueried(alphabet: string, n: nat, rows: seq<Row>, q: seq<Clause>, env: Env)
    requires 1 <= n <= |alphabet| && Stamped(alphabet, n, rows)
    requires Confident(q) || Literals(q) == {}
    ensures Within(Asked(alphabet, q, n), n)
    ensures multiset(Answer(q, env, Stores(rows, n), Asked(alphabet, q, n))) == multiset(Select(q, env, rows))
  {
    StoresArePlaced(alphabet, rows, n);
    NarrowingKeepsAnswer(alphabet, q, env, Stores(rows, n));
    FirstShardsHoldBelow(q, env, rows, Stores(rows, n), n);
    forall r | r in rows
      ensures KnownTag(r.shard, n)
    {
      var i := ShardOf(alphabet, r.sym, n);
      assert r.shard == ShardId(i);
    }
    BelowAll(rows, n);
  }

  lemma {:induction false} SentIsStores(p: ShardedPublisher, rows: seq<Row>, i: nat)
    requires p.Valid() && p.Holds(rows) && i < p.n
    ensures ShardId(i) in p.sent && p.sent[ShardId(i)] == Stores(rows, p.n)[i]
  {
    assert KnownTag(ShardId(i), p.n);
  }

  /** The two programs in a row: publish a batch after whatever was published before, then ask the shards
      the router picks. The gathered rows are the published rows, early and late, that the query selects. */
  method PublishThenAsk(alphabet: string, p: ShardedPublisher, ghost earlier: seq<Row>, rows: seq<Row>,
                        q: seq<Clause>, env: Env)
    returns (answer: seq<Row>)
    requires 1 <= p.n <= |alphabet| && p.Valid() && p.Holds(earlier)
    requires Stamped(alphabet, p.n, earlier + rows)
    requires Confident(q) || Literals(q) == {}
    modifies p`sent
    ensures p.Valid() && p.Holds(earlier + rows)
    ensures multiset(answer) == multiset(Select(q, env, earlier + rows))
  {
    hide WithTag, Select, Asked, Confident, Literals, Stamped, KnownTag, Stores;
    ghost var all, stores := earlier + rows, Stores(earlier + rows, p.n);
    ghost var before := p.sent;
    p.PublishRows(rows);
    forall id | id in p.sent
      ensures p.sent[id] == WithTag(all, id)
    {
      assert id in before && before[id] == WithTag(earlier, id);
      WithTagAppend(earlier, rows, id);
    }
    PublishedThenQueried(alphabet, p.n, all, q, env);
    var ids := Asked(alphabet, q, p.n);
    answer := [];
    AnswerNone(q, env, stores);
    for k := 0 to |ids|
      invariant p.Valid() && p.Holds(all) && answer == Answer(q, env, stores, ids[..k])
    {
      SentIsStores(p, all, ids[k]);
      AnswerSnoc(q, env, stores, ids[..k], ids[k]);
      assert ids[..k + 1] == ids[..k] + [ids[k]];
      answer := answer + Select(q, env, p.sent[ShardId(ids[k])]);
    }
    assert ids[..|ids|] == ids;
  }

  lemma {:induction false} AnswerNone(q: seq<Clause>, env: Env, stores: seq<seq<Row>>)
    ensures Answer(q, env, stores, []) == []
  {
  }

  // ------------------------------------------------------------------ the order of the answer

  lemma {:induction false} OneDigit(i: nat)
    requires i < 10
    ensures ShardId(i) == ['s', Digits[i]]
  {
  }

  lemma {:induction false} InsertLast(ids: seq<nat>, i: nat)
    requires i < 10 && forall k :: 0 <= k < |ids| ==> ids[k] < i
    ensures Insert(ids, i) == ids + [i]
  {
    if ids != [] {
      OneDigit(i);
      OneDigit(ids[0]);
      assert ShardId(i)[1..][0] == Digits[i] && ShardId(ids[0])[1..] == [Digits[ids[0]]];
      assert !LexLess(ShardId(i)[1..], ShardId(ids[0])[1..]);
      InsertLast(ids[1..], i);
      assert ids == [ids[0]] + ids[1..];
    }
  }

  /** With one-digit shard numbers the order of the names is the order of the shards. */
  lemma {:induction false} SortedIsAscending(owners: set<nat>, k: nat)
    requires k <= 10
    ensures SortedIds(owners, k) == Ascending(owners, k)
  {
    if k > 0 {
      SortedIsAscending(owners, k - 1);
      AscendingWithin(owners, k - 1);
      InsertLast(SortedIds(owners, k - 1), k - 1);
    }
  }

  /** `s10` sorts before `s2`. */
  lemma {:induction false} TenSortsBeforeTwo()
    ensures Insert([2], 10) == [10, 2]
  {
    assert Decimal(10) == "10" && Decimal(2) == "2";
    assert ShardId(10)[1..] == "10" && ShardId(2)[1..] == "2";
    assert ShardId(10)[0] == 's' && ShardId(2)[0] == 's';
    assert LexLess(ShardId(10)[1..], ShardId(2)[1..]);
  }

  lemma {:induction false} OnlyTwo(k: nat)
    requires 3 <= k <= 10
    ensures SortedIds({2, 10}, k) == [2] && Ascending({2, 10}, k) == [2]
  {
    hide ShardId, LexLess;
    if k == 3 {
      assert SortedIds({2, 10}, 1) == [] && Ascending({2, 10}, 1) == [];
      assert SortedIds({2, 10}, 2) == [] && Ascending({2, 10}, 2) == [];
    } else {
      OnlyTwo(k - 1);
    }
  }

  lemma {:induction false} TwoAndTen(k: nat)
    requires k >= 11
    ensures SortedIds({2, 10}, k) == [10, 2] && Ascending({2, 10}, k) == [2, 10]
  {
    hide ShardId, LexLess, Insert;
    if k == 11 {
      OnlyTwo(10);
      TenSortsBeforeTwo();
    } else {
      TwoAndTen(k - 1);
    }
  }

  /** Narrowing keeps the order of the gathered rows, for every placed data and every confident query. */
  ghost predicate OrderKept(alphabet: string, n: nat)
    requires 1 <= n <= |alphabet|
  {
    forall q: seq<Clause>, env: Env, stores: seq<seq<Row>> |
      |stores| == n && Placed(alphabet, stores) && Confident(q) && Within(Asked(alphabet, q, n), n) && Within(AllShards(n), n) ::
      Answer(q, env, stores, Asked(alphabet, q, n)) == Answer(q, env, stores, AllShards(n))
  }

  /** Rows come back in the same order as from the full fan-out exactly up to ten shards; from eleven on
      the names `s10`, `s11`, ... sort before `s2`. */
  lemma {:induction false} OrderKeptIff(alphabet: string, n: nat)
    requires Increasing(alphabet) && 1 <= n <= |alphabet|
    requires forall c :: c in alphabet ==> Upper(c) == c
    ensures OrderKept(alphabet, n) <==> n <= 10
  {
    if n <= 10 {
      forall q: seq<Clause>, env: Env, stores: seq<seq<Row>> |
        |stores| == n && Placed(alphabet, stores) && Confident(q) && Within(Asked(alphabet, q, n), n) && Within(AllShards(n), n)
        ensures Answer(q, env, stores, Asked(alphabet, q, n)) == Answer(q, env, stores, AllShards(n))
      {
        if Literals(q) != {} {
          NarrowedInOrder(alphabet, q, env, stores);
          SortedIsAscending(Owners(alphabet, Literals(q), n), n);
          AskedIsSorted(alphabet, q, n);
        }
      }
    } else {
      var q, env, stores := SwappedRows(alphabet, n);
    }
  }

  /** One row on shard 2 and one on shard 10, asked for by name, come back swapped. */
  lemma {:induction false} SwappedRows(alphabet: string, n: nat) returns (q: seq<Clause>, env: Env, stores: seq<seq<Row>>)
    requires Increasing(alphabet) && 11 <= n <= |alphabet|
    requires forall c :: c in alphabet ==> Upper(c) == c
    ensures |stores| == n && Placed(alphabet, stores) && Confident(q)
    ensures Within(Asked(alphabet, q, n), n) && Within(AllShards(n), n)
    ensures Answer(q, env, stores, Asked(alphabet, q, n)) != Answer(q, env, stores, AllShards(n))
  {
    var x := EveryShardOwnsSomething(alphabet, n, 2);
    var y := EveryShardOwnsSomething(alphabet, n, 10);
    var rx, ry := Row(x, [], "s2"), Row(y, [], "s10");
    env := map[];
    stores := seq(n, i => if i == 2 then [rx] else if i == 10 then [ry] else []);
    q := [SymIn([Literal(x), Literal(y)])];
    AskedWithin(alphabet, q, n);
    assert AllLiteral(q[0]);
    hide Literals, LiteralsOf, ShardOf, Asked, Answer, Ascending, SortedIds, Select;
    LiteralsOfTwo(x, y);
    assert Owners(alphabet, Literals(q), n) == {2, 10};
    AskedIsSorted(alphabet, q, n);
    NarrowedInOrder(alphabet, q, env, stores);
    TwoAndTen(n);
    TwoShardAnswers(q, env, stores, x, y);
  }

  lemma {:induction false} LiteralsOfTwo(x: string, y: string)
    ensures Literals([SymIn([Literal(x), Literal(y)])]) == {x, y}
  {
    var q := [SymIn([Literal(x), Literal(y)])];
    assert LiteralsOf(q[0]) == {x, y} by {
      assert q[0].terms[0].sym == x && q[0].terms[1].sym == y;
    }
    assert q[1..] == [];
  }

  lemma {:induction false} TwoShardAnswers(q: seq<Clause>, env: Env, stores: seq<seq<Row>>, x: string, y: string)
    requires |stores| >= 11 && stores[2] == [Row(x, [], "s2")] && stores[10] == [Row(y, [], "s10")]
    requires q == [SymIn([Literal(x), Literal(y)])]
    ensures Answer(q, env, stores, [2, 10]) == stores[2] + stores[10]
    ensures Answer(q, env, stores, [10, 2]) == stores[10] + stores[2]
    ensures (stores[2] + stores[10])[0] != (stores[10] + stores[2])[0]
  {
    assert Value(q[0].terms[0], env) == x && Value(q[0].terms[1], env) == y;
    assert Matches(q, env, stores[2][0]) && Matches(q, env, stores[10][0]);
    assert Select(q, env, stores[2]) == stores[2] && Select(q, env, stores[10]) == stores[10];
    AnswerOfTwo(q, env, stores, 2, 10);
    AnswerOfTwo(q, env, stores, 10, 2);
  }

  lemma {:induction false} AnswerOfTwo(q: seq<Clause>, env: Env, stores: seq<seq<Row>>, i: nat, j: nat)
    requires i < |stores| && j < |stores|
    ensures Answer(q, env, stores, [i, j]) == Select(q, env, stores[i]) + Select(q, env, stores[j])
  {
    AnswerSnoc(q, env, stores, [], i);
    AnswerSnoc(q, env, stores, [i], j);
    assert [] + [i] == [i] && [i] + [j] == [i, j];
  }
}
