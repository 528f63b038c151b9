/** The tier and the targets the gateway picks for a query (control-api/app/query_router.py, route_tiers,
    and control-api/app/routers/query.py, _run_one). */
module QueryTargets {
  import opened Common
  import opened Text
  import opened Topology
  import opened ShardedQuery
  import opened QueryText

  // ------------------------------------------------------------------ date clauses

  datatype DateClause = DateClause(op: string, rhs: string)

  /** The operator at the front of `s`, the first alternative that matches. */
  function DateOp(s: string): (op: string)
    ensures |op| <= |s|
  {
    if "=" <= s then "="
    else if ">=" <= s then ">="
    else if "<=" <= s then "<="
    else if ">" <= s then ">"
    else if "<" <= s then "<"
    else if |s| >= 6 && UpperAll(s[..6]) == "WITHIN" then s[..6]
    else if |s| >= 2 && UpperAll(s[..2]) == "IN" then s[..2]
    else ""
  }

  datatype DateHead = DateHead(op: string, size: nat)

  /** The word `date` and an operator, with any white space: the operator and how many characters. */
  function HeadOf(prev: bool, s: string): (r: Option<DateHead>)
    ensures r.Some? ==> 4 <= r.value.size <= |s|
  {
    if prev || |s| < 4 || UpperAll(s[..4]) != "DATE" then None
    else
      var k := 4 + Spaces(s[4..]);
      var op := DateOp(s[k..]);
      if op == "" then None else Some(DateHead(op, k + |op| + Spaces(s[k + |op|..])))
  }

  function DateClauses(prev: bool, s: string): seq<DateClause>
    decreases |s|
  {
    if s == [] then []
    else
      var head := HeadOf(prev, s);
      if head.None? then DateClauses(IsWord(s[0]), s[1..])
      else
        var k := head.value.size;
        var p, body := IsWord(s[k - 1]), s[k..];
        var x := Span(p, body);
        [DateClause(head.value.op, x)] + DateClauses(EndsInWord(p, x), body[|x|..])
  }

  predicate TodayOnly(rhs: string) {
    Strip(rhs) == ".z.d" || Strip(rhs) == ".z.D"
  }

  predicate IsDigit(c: char) {
    '0' <= c <= '9'
  }

  /** A date literal, `dddd.dd.dd`, at the front. */
  predicate DateAt(s: string) {
    && |s| >= 10 && s[4] == '.' && s[7] == '.'
    && IsDigit(s[0]) && IsDigit(s[1]) && IsDigit(s[2]) && IsDigit(s[3])
    && IsDigit(s[5]) && IsDigit(s[6]) && IsDigit(s[8]) && IsDigit(s[9])
  }

  predicate HasDate(s: string) {
    exists i :: 0 <= i < |s| && DateAt(s[i..])
  }

  /** Today's tier for a query without dates or for exactly today, the history for any other. */
  function RouteTier(query: string): Tier {
    var clauses := DateClauses(false, query);
    if clauses == [] then Rdb
    else if |clauses| == 1 && clauses[0].op == "=" && TodayOnly(clauses[0].rhs) && !HasDate(clauses[0].rhs) then Rdb
    else Hdb
  }

  lemma {:induction false} StripKeeps(s: string)
    ensures forall c :: c in s ==> IsSpace(c) || c in Strip(s)
  {
    LeftKeeps(s);
    RightKeeps(StripLeft(s));
  }

  lemma {:induction false} LeftKeeps(s: string)
    ensures forall c :: c in s ==> IsSpace(c) || c in StripLeft(s)
  {
    if s != [] && IsSpace(s[0]) {
      LeftKeeps(s[1..]);
      assert s == [s[0]] + s[1..];
    }
  }

  lemma {:induction false} RightKeeps(s: string)
    ensures forall c :: c in s ==> IsSpace(c) || c in StripRight(s)
  {
    if s != [] && IsSpace(s[|s| - 1]) {
      RightKeeps(s[..|s| - 1]);
      assert s == s[..|s| - 1] + [s[|s| - 1]];
    }
  }

  /** The test for a date literal never decides: what is exactly today holds no digit. */
  lemma {:induction false} TodayHasNoDate(rhs: string)
    requires TodayOnly(rhs)
    ensures !HasDate(rhs)
  {
    hide Strip;
    StripKeeps(rhs);
    forall i | 0 <= i < |rhs|
      ensures !DateAt(rhs[i..])
    {
      assert rhs[i] in rhs && !IsDigit(rhs[i]) && rhs[i..][0] == rhs[i];
    }
  }

  // ------------------------------------------------------------------ queries with one date

  predicate AllSpace(gap: string) {
    forall c :: c in gap ==> IsSpace(c)
  }

  /** No date clause starts in `pre`: wherever `d` stands, `da` does not. */
  predicate NoDates(pre: string) {
    pre == [] || ((Upper(pre[0]) != 'D' || (|pre| >= 2 && Upper(pre[1]) != 'A')) && NoDates(pre[1..]))
  }

  predicate IsDateOp(op: string) {
    op == "=" || op == ">=" || op == "<=" || op == ">" || op == "<" || op == "within" || op == "in"
  }

  /** One date clause, with any white space on both sides of its operator. */
  function Dated(gap: string, op: string, rhs: string): string {
    "date" + (gap + (op + (gap + rhs)))
  }

  lemma {:induction false} NoDateHere(prev: bool, pre: string, rest: string)
    requires pre != [] && NoDates(pre)
    ensures HeadOf(prev, pre + rest) == None
  {
    var s := pre + rest;
    if |s| >= 4 {
      assert UpperAll(s[..4])[0] == Upper(pre[0]) && "DATE"[0] == 'D';
      if |pre| >= 2 {
        assert UpperAll(s[..4])[1] == Upper(pre[1]) && "DATE"[1] == 'A';
      }
    }
  }

  lemma {:induction false} SkipDates(prev: bool, pre: string, rest: string)
    requires NoDates(pre)
    ensures DateClauses(prev, pre + rest) == DateClauses(EndsInWord(prev, pre), rest)
    decreases |pre|
  {
    hide HeadOf, IsWord, Span;
    if pre == [] {
      assert pre + rest == rest;
    } else {
      NoDateHere(prev, pre, rest);
      assert (pre + rest)[1..] == pre[1..] + rest && (pre + rest)[0] == pre[0];
      SkipDates(IsWord(pre[0]), pre[1..], rest);
    }
  }

  lemma {:induction false} SpacesOf(gap: string, rest: string)
    requires AllSpace(gap) && (rest == [] || !IsSpace(rest[0]))
    ensures Spaces(gap + rest) == |gap|
  {
    if gap == [] {
      assert gap + rest == rest;
    } else {
      assert (gap + rest)[1..] == gap[1..] + rest && gap[0] in gap;
      SpacesOf(gap[1..], rest);
    }
  }

  lemma {:induction false} OpIsRead(op: string, rest: string)
    requires IsDateOp(op) && (rest == [] || rest[0] != '=')
    ensures DateOp(op + rest) == op && op != [] && !IsSpace(op[0])
  {
    var s := op + rest;
    assert s[0] == op[0] && s[..|op|] == op;
    assert rest != [] ==> s[|op|] == rest[0];
    if op == "within" {
      assert UpperAll("within") == "WITHIN";
    } else if op == "in" {
      assert UpperAll("in") == "IN";
      if |s| >= 6 {
        assert UpperAll(s[..6])[0] == 'I' && "WITHIN"[0] == 'W';
      }
    }
  }

  lemma {:induction false} DateHeadIs(gap: string, op: string, rhs: string)
    requires AllSpace(gap) && IsDateOp(op) && (rhs == [] || (!IsSpace(rhs[0]) && rhs[0] != '='))
    ensures HeadOf(false, Dated(gap, op, rhs)) == Some(DateHead(op, 4 + |gap| + |op| + |gap|))
    ensures Dated(gap, op, rhs)[4 + |gap| + |op| + |gap|..] == rhs
  {
    hide Spaces, DateOp, IsDateOp, HeadOf, AllSpace;
    NextChar(gap, rhs);
    OpIsRead(op, gap + rhs);
    SpacesOf(gap, rhs);
    DateHeadOn(gap, op, gap + rhs, |gap|);
    Parts("date", gap, op, gap + rhs);
    DropTail(Dated(gap, op, rhs), 4 + |gap| + |op|, gap, rhs);
  }

  lemma {:induction false} DropTail(s: string, k: nat, a: string, b: string)
    requires k <= |s| && s[k..] == a + b
    ensures k + |a| <= |s| && s[k + |a|..] == b
  {
    assert |s| - k == |a| + |b|;
    assert s[k..][|a|..] == s[k + |a|..];
    DropFront(a, b);
  }

  lemma {:induction false} DateHeadOn(gap: string, op: string, after: string, more: nat)
    requires AllSpace(gap) && op != [] && !IsSpace(op[0])
    requires DateOp(op + after) == op && Spaces(after) == more
    ensures HeadOf(false, "date" + (gap + (op + after))) == Some(DateHead(op, 4 + |gap| + |op| + more))
  {
    hide Spaces, DateOp, HeadOf, AllSpace;
    var tail := op + after;
    assert tail[0] == op[0];
    SpacesOf(gap, tail);
    Parts("date", gap, op, after);
    HeadOfParts("date" + (gap + tail), gap + tail, |gap|, tail, op, after, more);
  }

  lemma {:induction false} NextChar(gap: string, rhs: string)
    requires AllSpace(gap) && (rhs == [] || rhs[0] != '=')
    ensures gap + rhs == [] || (gap + rhs)[0] != '='
  {
    if gap != [] {
      assert gap[0] in gap && (gap + rhs)[0] == gap[0];
    } else {
      assert gap + rhs == rhs;
    }
  }

  lemma {:induction false} HeadOfParts(s: string, spaced: string, gap: nat, tail: string, op: string, after: string, more: nat)
    requires |s| >= 4 && s[..4] == "date" && s[4..] == spaced && Spaces(spaced) == gap
    requires 4 + gap <= |s| && s[4 + gap..] == tail && DateOp(tail) == op != ""
    requires 4 + gap + |op| <= |s| && s[4 + gap + |op|..] == after && Spaces(after) == more
    ensures HeadOf(false, s) == Some(DateHead(op, 4 + gap + |op| + more))
  {
    hide Spaces, DateOp;
    assert UpperAll("date") == "DATE";
  }

  /** A text of four parts, taken apart. */
  lemma {:induction false} Parts(a: string, b: string, c: string, d: string)
    ensures var s := a + (b + (c + d));
            && |s| == |a| + |b| + |c| + |d| && s[..|a|] == a && s[|a|..] == b + (c + d)
            && s[|a| + |b|..] == c + d && s[|a| + |b| + |c|..] == d
  {
    DropFront(b, c + d);
    DropFront(c, d);
    DropMore(a, b + (c + d), |b|);
    DropMore(a, b + (c + d), |b| + |c|);
    DropMore(b, c + d, |c|);
  }

  lemma {:induction false} DropFront(a: string, b: string)
    ensures (a + b)[..|a|] == a && (a + b)[|a|..] == b
  {
  }

  lemma {:induction false} DropMore(a: string, b: string, k: nat)
    requires k <= |b|
    ensures (a + b)[|a| + k..] == b[k..]
  {
  }

  /** A query with one date clause, written with any white space around any operator, is today's exactly
      when the operator is `=` and the date is today's. */
  lemma {:induction false} DatedTier(pre: string, gap: string, op: string, rhs: string)
    requires NoDates(pre) && !EndsInWord(false, pre) && AllSpace(gap) && IsDateOp(op)
    requires Plain(rhs) && rhs != [] && !IsSpace(rhs[0]) && rhs[0] != '=' && rhs[|rhs| - 1] != '\n'
    ensures RouteTier(pre + Dated(gap, op, rhs)) == if op == "=" && Strip(rhs) in {".z.d", ".z.D"} then Rdb else Hdb
  {
    hide NoDates, Plain, Span, HeadOf, EndsInWord, HasDate, IsDateOp, AllSpace, Dated, Strip;
    var s := Dated(gap, op, rhs);
    SkipDates(false, pre, s);
    DateHeadIs(gap, op, rhs);
    OneDate(s, op, 4 + |gap| + |op| + |gap|, rhs);
    if TodayOnly(rhs) {
      TodayHasNoDate(rhs);
    }
  }

  /** A query in which no date clause starts is today's. */
  lemma {:induction false} UndatedIsToday(query: string)
    requires NoDates(query)
    ensures RouteTier(query) == Rdb
  {
    SkipDates(false, query, []);
    assert query + [] == query;
    assert DateClauses(EndsInWord(false, query), []) == [];
  }

  /** A query with two date clauses, whatever they ask for, goes to the history: even two that both ask for
      today. */
  lemma {:induction false} TwoDatesAreHistory(pre: string, gap: string, op: string, rhs: string,
                                              mid: string, gap2: string, op2: string, rhs2: string)
    requires NoDates(pre) && !EndsInWord(false, pre) && AllSpace(gap) && IsDateOp(op)
    requires Plain(rhs) && rhs != [] && !IsSpace(rhs[0]) && rhs[0] != '='
    requires mid != [] && mid[0] == ',' && NoDates(mid) && !EndsInWord(false, mid) && AllSpace(gap2) && IsDateOp(op2)
    requires rhs2 == [] || (!IsSpace(rhs2[0]) && rhs2[0] != '=')
    ensures RouteTier(pre + Dated(gap, op, rhs + (mid + Dated(gap2, op2, rhs2)))) == Hdb
  {
    hide NoDates, Plain, Span, HeadOf, EndsInWord, TodayOnly, HasDate, IsDateOp, AllSpace, Dated, DateClauses;
    var second := Dated(gap2, op2, rhs2);
    var s := Dated(gap, op, rhs + (mid + second));
    SkipDates(false, pre, s);
    DateHeadIs(gap, op, rhs + (mid + second));
    DateHeadIs(gap2, op2, rhs2);
    FirstOfTwo(s, op, 4 + |gap| + |op| + |gap|, rhs, mid, second);
  }

  lemma {:induction false} FirstOfTwo(s: string, op: string, k: nat, rhs: string, mid: string, second: string)
    requires HeadOf(false, s) == Some(DateHead(op, k)) && s[k..] == rhs + (mid + second)
    requires Plain(rhs) && mid != [] && mid[0] == ',' && NoDates(mid) && !EndsInWord(false, mid)
    requires HeadOf(false, second).Some?
    ensures |DateClauses(false, s)| >= 2
  {
    hide Plain, Span, HeadOf, IsWord, NoDates, DateClauses, EndsInWord;
    var p, rest := IsWord(s[k - 1]), mid + second;
    CommaCuts(p, rhs, rest);
    DateClausesStep(false, s, op, k, rhs + rest);
    assert (rhs + rest)[|rhs|..] == rest;
    SkipDates(EndsInWord(p, rhs), mid, second);
    EndsAnyhow(EndsInWord(p, rhs), false, mid);
    var head := HeadOf(false, second).value;
    DateClausesStep(false, second, head.op, head.size, second[head.size..]);
  }

  lemma {:induction false} EndsAnyhow(p: bool, q: bool, x: string)
    requires x != []
    ensures EndsInWord(p, x) == EndsInWord(q, x)
  {
  }

  lemma {:induction false} CommaCuts(p: bool, rhs: string, rest: string)
    requires Plain(rhs) && rest != [] && rest[0] == ','
    ensures Span(p, rhs + rest) == rhs
  {
    hide Plain, Readable, NoStops;
    PlainIsReadable(p, rhs);
    ReadableIsWhole(p, rhs, rest);
    SpanIs(p, rhs, rest);
    assert Span(EndsInWord(p, rhs), rest) == [] && rhs + [] == rhs;
  }

  lemma {:induction false} DateClausesStep(prev: bool, s: string, op: string, k: nat, body: string)
    requires HeadOf(prev, s) == Some(DateHead(op, k)) && body == s[k..]
    ensures var p := IsWord(s[k - 1]);
            var x := Span(p, body);
            DateClauses(prev, s) == [DateClause(op, x)] + DateClauses(EndsInWord(p, x), body[|x|..])
  {
    hide HeadOf, Span, IsWord, EndsInWord;
  }

  lemma {:induction false} OneDate(s: string, op: string, k: nat, rhs: string)
    requires HeadOf(false, s) == Some(DateHead(op, k)) && s[k..] == rhs
    requires Plain(rhs) && rhs != [] && rhs[|rhs| - 1] != '\n'
    ensures DateClauses(false, s) == [DateClause(op, rhs)]
  {
    hide Plain, Span, HeadOf, EndsInWord, IsWord;
    var p := IsWord(s[k - 1]);
    PlainIsReadable(p, rhs);
    ReadableIsWhole(p, rhs, []);
    SpanIs(p, rhs, []);
    NothingLeft(EndsInWord(p, rhs));
    assert rhs + [] == rhs && rhs[|rhs|..] == [];
    assert DateClauses(EndsInWord(p, rhs), []) == [];
  }

  // ------------------------------------------------------------------ targets

  /** The targets the workspace lists: the gateway, and per shard the two history tiers, today's and the
      tickerplant. */
  function KnownTargets(n: nat): set<string> {
    {"gateway"} + set t, i | t in {Rdb, Idb, Hdb, Tickerplant} && 0 <= i < n :: Service(t, i)
  }

  function TargetsOf(t: Tier, ids: seq<nat>): (targets: seq<string>)
    ensures |targets| == |ids|
  {
    seq(|ids|, k requires 0 <= k < |ids| => Service(t, ids[k]))
  }

  lemma {:induction false} AreKnown(t: Tier, ids: seq<nat>, n: nat)
    requires t in {Rdb, Hdb} && Within(ids, n)
    ensures forall k :: 0 <= k < |ids| ==> Service(t, ids[k]) in KnownTargets(n)
  {
    hide Service;
  }

  lemma {:induction false} AskedForWithin(alphabet: string, syms: set<string>, n: nat)
    requires 1 <= n <= |alphabet|
    ensures Within(AskedFor(alphabet, syms, n), n)
  {
    AscendingWithin(Owners(alphabet, syms, n), n);
    AscendingWithin(UpTo(n), n);
  }

  lemma {:induction false} TierIsOneOfTwo(query: string)
    ensures RouteTier(query) in {Rdb, Hdb}
  {
  }

  /** No symbol was read from the query, or the shard owns one that was. */
  ghost predicate Needed(alphabet: string, query: string, n: nat, i: nat)
    requires 1 <= n <= |alphabet|
  {
    ReadFrom(query) == {} || exists s :: s in ReadFrom(query) && ShardOf(alphabet, s, n) == i
  }

  /** The gateway's loop: the processes of one tier for the shards asked, of those that are listed. None
      is dropped for not being listed. */
  method ShardTargets(alphabet: string, query: string, n: nat) returns (targets: seq<string>)
    requires 1 <= n <= |alphabet|
    ensures targets == TargetsOf(RouteTier(query), AskedFor(alphabet, ReadFrom(query), n))
    ensures NoDates(query) ==>
              forall t, i: nat :: Service(t, i) in targets <==> t == Rdb && i < n && Needed(alphabet, query, n, i)
  {
    TierIsOneOfTwo(query);
    hide ReadFrom, AskedFor, KnownTargets, NoDates, RouteTier, Service;
    if NoDates(query) {
      UndatedIsToday(query);
    }
    forall t, i: nat {
      TargetAskedIff(alphabet, query, n, t, i);
    }
    var syms := ExtractSyms(query);
    var ids := AskedFor(alphabet, if syms.Some? then syms.value else {}, n);
    var known := KnownTargets(n);
    var tier := RouteTier(query);
    AskedForWithin(alphabet, ReadFrom(query), n);
    AreKnown(tier, ids, n);
    targets := [];
    for k := 0 to |ids|
      invariant targets == TargetsOf(tier, ids[..k])
    {
      assert ids[..k + 1] == ids[..k] + [ids[k]];
      if Service(tier, ids[k]) in known {
        targets := targets + [Service(tier, ids[k])];
      }
    }
    assert ids[..|ids|] == ids;
  }

  /** Which processes are asked: those of the query's tier whose shard owns a symbol read, or all of that
      tier when none was read. */
  lemma {:induction false} TargetAskedIff(alphabet: string, query: string, n: nat, t: Tier, i: nat)
    requires 1 <= n <= |alphabet|
    ensures Service(t, i) in TargetsOf(RouteTier(query), AskedFor(alphabet, ReadFrom(query), n))
       <==> t == RouteTier(query) && i < n && Needed(alphabet, query, n, i)
  {
    hide ReadFrom, AskedFor, RouteTier, Service, ShardOf;
    var tier, ids := RouteTier(query), AskedFor(alphabet, ReadFrom(query), n);
    AskedForIff(alphabet, ReadFrom(query), n, i);
    if Service(t, i) in TargetsOf(tier, ids) {
      var k :| 0 <= k < |ids| && Service(tier, ids[k]) == Service(t, i);
      ServiceInjective(t, i, tier, ids[k]);
    }
    if t == tier && i in ids {
      var k :| 0 <= k < |ids| && ids[k] == i;
      assert TargetsOf(tier, ids)[k] == Service(t, i);
    }
  }
}
