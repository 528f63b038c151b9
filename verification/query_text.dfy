/** Reading symbols out of query text (control-api/app/query_router.py, extract_syms): the regular
    expressions over the text, and when what they find is what the query asks for. Letters are ASCII. */
module QueryText {
  import opened Common
  import opened Text
  import opened Topology
  import opened ShardedQuery

  // ------------------------------------------------------------------ the regular expressions

  /** `\w`, among ASCII characters. */
  predicate IsWord(c: char) {
    'a' <= c <= 'z' || 'A' <= c <= 'Z' || '0' <= c <= '9' || c == '_'
  }

  /** The characters of a bare symbol token. */
  predicate IsName(c: char) {
    IsWord(c) || c == '.'
  }

  /** Whether the text so far ends in a word character, `prev` saying so of what precedes `x`. */
  function EndsInWord(prev: bool, x: string): bool {
    if x == [] then prev else IsWord(x[|x| - 1])
  }

  /** The word `by`, in either case, at the front of `s`. */
  predicate ByAt(prev: bool, s: string) {
    !prev && |s| >= 2 && Upper(s[0]) == 'B' && Upper(s[1]) == 'Y' && (|s| == 2 || !IsWord(s[2]))
  }

  /** Where a clause ends: a comma, the word `by`, the end of the text or the newline that ends it. */
  predicate Stops(prev: bool, s: string) {
    s == [] || s == "\n" || s[0] == ',' || ByAt(prev, s)
  }

  /** The shortest text up to a stop. */
  function Span(prev: bool, s: string): (x: string)
    ensures |x| <= |s| && s[..|x|] == x
    decreases |s|
  {
    if Stops(prev, s) then [] else [s[0]] + Span(IsWord(s[0]), s[1..])
  }

  function Spaces(s: string): (k: nat)
    ensures k <= |s|
  {
    if s == [] || !IsSpace(s[0]) then 0 else 1 + Spaces(s[1..])
  }

  /** The word `sym`, then `=` or `in`, with any white space: how many characters that takes. */
  function Head(prev: bool, s: string): (r: Option<nat>)
    ensures r.Some? ==> 4 <= r.value <= |s|
  {
    if prev || |s| < 3 || UpperAll(s[..3]) != "SYM" then None
    else
      var k := 3 + Spaces(s[3..]);
      if k < |s| && s[k] == '=' then Some(k + 1 + Spaces(s[k + 1..]))
      else if k + 1 < |s| && Upper(s[k]) == 'I' && Upper(s[k + 1]) == 'N' then Some(k + 2 + Spaces(s[k + 2..]))
      else None
  }

  /** What follows each such head, left to right. */
  function Clauses(prev: bool, s: string): seq<string>
    decreases |s|
  {
    if s == [] then []
    else
      var head := Head(prev, s);
      if head.None? then Clauses(IsWord(s[0]), s[1..])
      else
        var p, body := IsWord(s[head.value - 1]), s[head.value..];
        var x := Span(p, body);
        [x] + Clauses(EndsInWord(p, x), body[|x|..])
  }

  lemma {:induction false} ClausesSkip(prev: bool, s: string)
    requires s != [] && Head(prev, s).None?
    ensures Clauses(prev, s) == Clauses(IsWord(s[0]), s[1..])
  {
    hide Head, Span, IsWord;
  }

  lemma {:induction false} ClausesStep(prev: bool, s: string, k: nat, body: string)
    requires Head(prev, s) == Some(k) && body == s[k..]
    ensures var p := IsWord(s[k - 1]);
            var x := Span(p, body);
            Clauses(prev, s) == [x] + Clauses(EndsInWord(p, x), body[|x|..])
  {
    hide Head, Span, IsWord, EndsInWord;
  }

  function NameRun(s: string): (k: nat)
    ensures k <= |s| && (k < |s| ==> !IsName(s[k])) && forall i :: 0 <= i < k ==> IsName(s[i])
  {
    if s == [] || !IsName(s[0]) then 0 else 1 + NameRun(s[1..])
  }

  /** Bare tokens: a backtick and the name after it. */
  function Tokens(s: string): seq<string> {
    if s == [] then []
    else
      var k := NameRun(s[1..]);
      if s[0] == '`' && k > 0 then [s[1..1 + k]] + Tokens(s[1 + k..]) else Tokens(s[1..])
  }

  function QuoteRun(s: string): (k: nat)
    ensures k <= |s| && (k < |s| ==> s[k] == '"') && forall i :: 0 <= i < k ==> s[i] != '"'
  {
    if s == [] || s[0] == '"' then 0 else 1 + QuoteRun(s[1..])
  }

  /** Cast strings: backtick, dollar, and a quoted text that is not empty. */
  function Casts(s: string): seq<string>
    decreases |s|
  {
    if s == [] then []
    else if "`$\"" <= s && QuoteRun(s[3..]) > 0 && 3 + QuoteRun(s[3..]) < |s| then
      var k := QuoteRun(s[3..]);
      [s[3..3 + k]] + Casts(s[4 + k..])
    else Casts(s[1..])
  }

  function Members(xs: seq<string>): set<string> {
    set x | x in xs
  }

  function ReadIn(clauses: seq<string>): set<string> {
    if clauses == [] then {}
    else Members(Tokens(clauses[0])) + Members(Casts(clauses[0])) + ReadIn(clauses[1..])
  }

  lemma {:induction false} ReadInFront(x: string, more: seq<string>)
    ensures ReadIn([x] + more) == Members(Tokens(x)) + Members(Casts(x)) + ReadIn(more)
  {
    assert ([x] + more)[1..] == more;
  }

  /** Every symbol the router reads from a query. */
  function ReadFrom(query: string): set<string> {
    ReadIn(Clauses(false, query))
  }

  /** The loop over the clauses; None when no symbol was found. */
  method ExtractSyms(query: string) returns (r: Option<set<string>>)
    ensures r == if ReadFrom(query) == {} then None else Some(ReadFrom(query))
  {
    var syms: seq<string> := [];
    var rest := Clauses(false, query);
    while rest != []
      invariant Members(syms) + ReadIn(rest) == ReadFrom(query)
      decreases |rest|
    {
      syms := syms + Tokens(rest[0]);
      syms := syms + Casts(rest[0]);
      rest := rest[1..];
    }
    assert Members(syms) == ReadFrom(query);
    if syms == [] {
      return None;
    }
    assert syms[0] in Members(syms);
    return Some(Members(syms));
  }

  // ------------------------------------------------------------------ what is read is never cut

  /** A symbol the clause expression does not cut: no comma in it, and no word `by`. */
  predicate Readable(prev: bool, s: string)
    decreases |s|
  {
    s == [] || (s[0] != ',' && !ByAt(prev, s) && Readable(IsWord(s[0]), s[1..]))
  }

  /** No clause ends inside `x` when `rest` follows it. */
  predicate NoStops(prev: bool, x: string, rest: string)
    decreases |x|
  {
    x == [] || (!Stops(prev, x + rest) && NoStops(IsWord(x[0]), x[1..], rest))
  }

  lemma {:induction false} SpanIs(prev: bool, x: string, rest: string)
    requires NoStops(prev, x, rest)
    ensures Span(prev, x + rest) == x + Span(EndsInWord(prev, x), rest)
    decreases |x|
  {
    hide Stops, IsWord;
    if x == [] {
      assert x + rest == rest;
    } else {
      assert (x + rest)[1..] == x[1..] + rest;
      SpanIs(IsWord(x[0]), x[1..], rest);
      assert x == [x[0]] + x[1..];
    }
  }

  lemma {:induction false} SpanEnds(prev: bool, s: string)
    ensures var x := Span(prev, s);
            NoStops(prev, x, s[|x|..]) && Stops(EndsInWord(prev, x), s[|x|..])
    decreases |s|
  {
    hide Stops, IsWord, NoStops, EndsInWord;
    if Stops(prev, s) {
      assert s[0..] == s;
      NoStopsNone(prev, s);
    } else {
      SomeText(prev, s);
      var p, rest := IsWord(s[0]), s[1..];
      var more := Span(p, rest);
      SpanEnds(p, rest);
      assert Span(prev, s) == [s[0]] + more && s[|[s[0]] + more|..] == rest[|more|..];
      NoStopsFront(prev, s[0], more, rest[|more|..]);
      assert [s[0]] + more + rest[|more|..] == s;
    }
  }

  lemma {:induction false} SomeText(prev: bool, s: string)
    ensures !Stops(prev, s) ==> s != []
  {
  }

  lemma {:induction false} NoStopsNone(prev: bool, rest: string)
    ensures NoStops(prev, [], rest) && EndsInWord(prev, []) == prev
  {
  }

  lemma {:induction false} NoStopsFront(prev: bool, c: char, more: string, rest: string)
    ensures EndsInWord(prev, [c] + more) == EndsInWord(IsWord(c), more)
    ensures NoStops(prev, [c] + more, rest) <==> !Stops(prev, [c] + more + rest) && NoStops(IsWord(c), more, rest)
  {
    hide Stops, IsWord;
    assert ([c] + more)[1..] == more;
  }

  lemma {:induction false} NoStopsSplits(prev: bool, a: string, b: string, rest: string)
    ensures NoStops(prev, a + b, rest) <==> NoStops(prev, a, b + rest) && NoStops(EndsInWord(prev, a), b, rest)
    decreases |a|
  {
    if a == [] {
      assert a + b == b;
    } else {
      assert (a + b)[1..] == a[1..] + b && a + b + rest == a + (b + rest);
      NoStopsSplits(IsWord(a[0]), a[1..], b, rest);
    }
  }

  lemma {:induction false} ReadableIsWhole(prev: bool, x: string, rest: string)
    requires Readable(prev, x)
    requires if rest == [] then x == [] || x[|x| - 1] != '\n' else !IsWord(rest[0])
    ensures NoStops(prev, x, rest)
    decreases |x|
  {
    if x != [] {
      ReadableIsWhole(IsWord(x[0]), x[1..], rest);
      assert (x + rest)[0] == x[0];
      if |x| > 1 {
        assert (x + rest)[1] == x[1];
        if |x| > 2 {
          assert (x + rest)[2] == x[2];
        }
      }
    }
  }

  lemma {:induction false} WholeIsReadable(prev: bool, x: string, rest: string)
    requires NoStops(prev, x, rest)
    requires rest == [] || !IsWord(rest[0]) || !EndsInWord(prev, x)
    ensures Readable(prev, x)
    decreases |x|
  {
    if x != [] {
      WholeIsReadable(IsWord(x[0]), x[1..], rest);
      assert (x + rest)[0] == x[0];
      if |x| > 1 {
        assert (x + rest)[1] == x[1];
        if |x| > 2 {
          assert (x + rest)[2] == x[2];
        }
      }
    }
  }

  /** The tokens of a clause, in the text it was cut from. */
  lemma {:induction false} TokensAreReadable(prev: bool, x: string, rest: string)
    requires NoStops(prev, x, rest) && Stops(EndsInWord(prev, x), rest)
    ensures forall t :: t in Tokens(x) ==> Readable(false, t)
    decreases |x|
  {
    if x != [] {
      var k := NameRun(x[1..]);
      FrontStops(prev, x, rest);
      hide Readable, NoStops;
      if x[0] == '`' && k > 0 {
        var t, more := x[1..1 + k], x[1 + k..];
        assert x[1..] == t + more && Tokens(x) == [t] + Tokens(more);
        NoStopsSplits(false, t, more, rest);
        EndsConcat(false, t, more);
        WholeIsReadable(false, t, more + rest);
        hide Tokens, Stops;
        TokensAreReadable(EndsInWord(false, t), more, rest);
      } else {
        assert Tokens(x) == Tokens(x[1..]);
        hide Tokens, Stops;
        TokensAreReadable(IsWord(x[0]), x[1..], rest);
      }
    }
  }

  lemma {:induction false} CastsAreReadable(prev: bool, x: string, rest: string)
    requires NoStops(prev, x, rest) && Stops(EndsInWord(prev, x), rest)
    ensures forall t :: t in Casts(x) ==> Readable(false, t)
    decreases |x|
  {
    hide Readable, NoStops, Stops, IsWord, EndsInWord;
    if x != [] {
      if "`$\"" <= x && QuoteRun(x[3..]) > 0 && 3 + QuoteRun(x[3..]) < |x| {
        var k := QuoteRun(x[3..]);
        var t, more := x[3..3 + k], x[4 + k..];
        assert x == "`$\"" + t + "\"" + more;
        QuotedPart(prev, t, more, rest);
        CastsAreReadable(false, more, rest);
        assert Casts(x) == [t] + Casts(more);
      } else {
        FrontStops(prev, x, rest);
        CastsAreReadable(IsWord(x[0]), x[1..], rest);
      }
    }
  }

  lemma {:induction false} FrontStops(prev: bool, x: string, rest: string)
    requires x != [] && NoStops(prev, x, rest)
    ensures NoStops(IsWord(x[0]), x[1..], rest) && EndsInWord(prev, x) == EndsInWord(IsWord(x[0]), x[1..])
  {
  }

  lemma {:induction false} EndsConcat(prev: bool, a: string, b: string)
    ensures EndsInWord(prev, a + b) == EndsInWord(EndsInWord(prev, a), b)
  {
    hide IsWord;
    if b == [] {
      assert a + b == a;
    }
  }

  /** A quoted text inside a clause is not cut, and neither is what follows it. */
  lemma {:induction false} QuotedPart(prev: bool, t: string, more: string, rest: string)
    requires NoStops(prev, "`$\"" + t + "\"" + more, rest)
    ensures Readable(false, t) && NoStops(false, more, rest)
    ensures EndsInWord(prev, "`$\"" + t + "\"" + more) == EndsInWord(false, more)
  {
    hide NoStops, Readable, Stops;
    var open, close := "`$\"", "\"";
    assert open + t + close + more == open + (t + (close + more));
    assert close + more + rest == close + (more + rest) && (close + more + rest)[0] == '"';
    NoStopsSplits(prev, open, t + (close + more), rest);
    NoStopsSplits(false, t, close + more, rest);
    WholeIsReadable(false, t, close + more + rest);
    NoStopsSplits(EndsInWord(false, t), close, more, rest);
    EndsConcat(prev, open + t + close, more);
    EndsConcat(prev, open + t, close);
  }

  /** Whatever the text, every symbol the router reads from it is one it does not cut. */
  lemma {:induction false} ReadIsReadable(prev: bool, s: string)
    ensures forall t :: t in ReadIn(Clauses(prev, s)) ==> Readable(false, t)
    decreases |s|
  {
    hide Head, Span, Clauses, Tokens, Casts, Readable, NoStops, Stops, IsWord, EndsInWord, ReadIn;
    if s == [] {
      NothingAfter(prev);
      NothingRead();
      return;
    }
    var head := Head(prev, s);
    if head.None? {
      ClausesSkip(prev, s);
      ReadIsReadable(IsWord(s[0]), s[1..]);
    } else {
      var p, body := IsWord(s[head.value - 1]), s[head.value..];
      var x := Span(p, body);
      ClausesStep(prev, s, head.value, body);
      SpanEnds(p, body);
      TokensAreReadable(p, x, body[|x|..]);
      CastsAreReadable(p, x, body[|x|..]);
      ReadIsReadable(EndsInWord(p, x), body[|x|..]);
      ReadInFront(x, Clauses(EndsInWord(p, x), body[|x|..]));
    }
  }

  lemma {:induction false} NothingAfter(prev: bool)
    ensures Clauses(prev, []) == []
  {
  }

  lemma {:induction false} NothingRead()
    ensures ReadIn([]) == {} && Members([]) == {}
  {
  }

  // ------------------------------------------------------------------ the queries the platform writes

  /** A symbol as a q literal (web-ui/src/lib/tradingCore.js). */
  function QSym(sym: string): string {
    "`$\"" + sym + "\""
  }

  /** The literals of a list, with semicolons between them. */
  function Joined(syms: seq<string>): string {
    if syms == [] then []
    else if |syms| == 1 then QSym(syms[0])
    else QSym(syms[0]) + ";" + Joined(syms[1..])
  }

  const Columns := "price, " + "size "
  const From := "from trade where "
  const OnePrefix := "select " + ("time, " + (Columns + From))
  const ListPrefix := "select " + ("time, " + ("sym, " + (Columns + From)))

  function TapeQuery(syms: seq<string>): string {
    if |syms| == 1 then OnePrefix + ("sym=" + QSym(syms[0]))
    else ListPrefix + ("sym in " + ("(" + Joined(syms) + ")"))
  }

  /** What can stand between the quotes: not empty, no quote, and no backtick. */
  predicate Castable(s: string) {
    s != "" && '"' !in s && '`' !in s
  }

  /** No clause starts in `pre`, whatever follows it: wherever `sy` stands, `sym,` does. */
  predicate NoHeads(pre: string) {
    pre == [] ||
      ((Upper(pre[0]) != 'S' || (|pre| >= 2 && Upper(pre[1]) != 'Y') || (|pre| >= 4 && pre[3] == ',')) && NoHeads(pre[1..]))
  }

  lemma {:induction false} NoHeadHere(prev: bool, pre: string, rest: string)
    requires pre != [] && NoHeads(pre)
    ensures Head(prev, pre + rest) == None
  {
    var s := pre + rest;
    if |s| >= 3 {
      assert UpperAll(s[..3])[0] == Upper(pre[0]) && "SYM"[0] == 'S';
      if |pre| >= 2 {
        assert UpperAll(s[..3])[1] == Upper(pre[1]) && "SYM"[1] == 'Y';
      }
      if |pre| >= 4 && pre[3] == ',' {
        assert s[3] == ',' && Spaces(s[3..]) == 0;
      }
    }
  }

  lemma {:induction false} SkipPrefix(prev: bool, pre: string, rest: string)
    requires NoHeads(pre)
    ensures Clauses(prev, pre + rest) == Clauses(EndsInWord(prev, pre), rest)
    decreases |pre|
  {
    hide Head, IsWord;
    if pre == [] {
      assert pre + rest == rest;
    } else {
      NoHeadHere(prev, pre, rest);
      assert (pre + rest)[1..] == pre[1..] + rest && (pre + rest)[0] == pre[0];
      SkipPrefix(IsWord(pre[0]), pre[1..], rest);
    }
  }

  lemma {:induction false} NoHeadsConcat(a: string, b: string)
    requires NoHeads(a) && NoHeads(b)
    ensures NoHeads(a + b)
  {
    if a == [] {
      assert a + b == b;
    } else {
      assert (a + b)[1..] == a[1..] + b;
      NoHeadsConcat(a[1..], b);
    }
  }

  predicate NoS(x: string) {
    forall c :: c in x ==> Upper(c) != 'S'
  }

  lemma {:induction false} NoSNoHeads(x: string)
    requires NoS(x)
    ensures NoHeads(x)
  {
    if x != [] {
      NoSNoHeads(x[1..]);
      assert x[0] in x;
    }
  }

  lemma {:induction false} FirstS(x: string)
    requires |x| >= 2 && NoS(x[1..]) && (Upper(x[1]) != 'Y' || (|x| >= 4 && x[3] == ','))
    ensures NoHeads(x)
  {
    NoSNoHeads(x[1..]);
  }

  lemma {:induction false} ColumnsHaveNoHeads()
    ensures NoHeads(Columns + From)
  {
    hide NoHeads;
    assert "size "[1..] == "ize ";
    FirstS("size ");
    NoSNoHeads("price, ");
    NoSNoHeads(From);
    NoHeadsConcat("price, ", "size ");
    NoHeadsConcat(Columns, From);
  }

  lemma {:induction false} PrefixesHaveNoHeads()
    ensures NoHeads(OnePrefix) && !EndsInWord(false, OnePrefix)
    ensures NoHeads(ListPrefix) && !EndsInWord(false, ListPrefix)
  {
    hide NoHeads;
    ColumnsHaveNoHeads();
    var rest := Columns + From;
    assert "select "[1..] == "elect " && "sym, "[1..] == "ym, ";
    FirstS("select ");
    FirstS("sym, ");
    NoSNoHeads("time, ");
    NoHeadsConcat("time, ", rest);
    NoHeadsConcat("select ", "time, " + rest);
    NoHeadsConcat("sym, ", rest);
    NoHeadsConcat("time, ", "sym, " + rest);
    NoHeadsConcat("select ", "time, " + ("sym, " + rest));
    assert From[|From| - 1] == ' ';
  }

  /** The text after the head of the query's one clause. */
  function Body(syms: seq<string>): string {
    if |syms| == 1 then QSym(syms[0]) else "(" + Joined(syms) + ")"
  }

  lemma {:induction false} HeadsMatch(body: string)
    requires body != [] && !IsSpace(body[0])
    ensures Head(false, "sym=" + body) == Some(4) && Head(false, "sym in " + body) == Some(7)
  {
    OneHead(body);
    ListHead(body);
  }

  lemma {:induction false} OneSpace(rest: string)
    requires rest != [] && !IsSpace(rest[0])
    ensures Spaces(" " + rest) == 1 && Spaces(rest) == 0
  {
    assert (" " + rest)[1..] == rest;
  }

  lemma {:induction false} OneHead(body: string)
    requires body != [] && !IsSpace(body[0])
    ensures Head(false, "sym=" + body) == Some(4)
  {
    hide Spaces;
    var s := "sym=" + body;
    OneSpace(body);
    OneSpace("=" + body);
    assert s[..3] == "sym" && UpperAll("sym") == "SYM";
    assert s[3..] == "=" + body && s[4..] == body;
  }

  lemma {:induction false} ListHead(body: string)
    requires body != [] && !IsSpace(body[0])
    ensures Head(false, "sym in " + body) == Some(7)
  {
    hide Spaces;
    var s := "sym in " + body;
    OneSpace(body);
    OneSpace("in " + body);
    assert s[..3] == "sym" && UpperAll("sym") == "SYM";
    assert s[3..] == " " + ("in " + body) && s[6..] == " " + body;
    assert s[4] == 'i' && s[5] == 'n';
  }

  /** A query of the platform has one clause to begin with: its body up to the first stop. */
  lemma {:induction false} TapeClauses(syms: seq<string>)
    ensures var body := Body(syms);
            var x := Span(false, body);
            Clauses(false, TapeQuery(syms)) == [x] + Clauses(EndsInWord(false, x), body[|x|..])
  {
    hide NoHeads, Joined;
    var body := Body(syms);
    PrefixesHaveNoHeads();
    HeadsMatch(body);
    if |syms| == 1 {
      assert TapeQuery(syms) == OnePrefix + ("sym=" + body);
      SkipPrefix(false, OnePrefix, "sym=" + body);
      HeadClause("sym=", body);
    } else {
      assert TapeQuery(syms) == ListPrefix + ("sym in " + body);
      SkipPrefix(false, ListPrefix, "sym in " + body);
      HeadClause("sym in ", body);
    }
  }

  lemma {:induction false} HeadClause(head: string, body: string)
    requires head != [] && Head(false, head + body) == Some(|head|) && !IsWord(head[|head| - 1])
    ensures var x := Span(false, body);
            Clauses(false, head + body) == [x] + Clauses(EndsInWord(false, x), body[|x|..])
  {
    hide Span, Clauses, Head, IsWord, EndsInWord;
    var s := head + body;
    assert s[|head| - 1] == head[|head| - 1] && s[|head|..] == body;
    ClausesStep(false, s, |head|, body);
  }

  // ------------------------------------------------------------------ lists that are read in full

  lemma {:induction false} OpenQuoteWhole(rest: string)
    ensures NoStops(false, "`$\"", rest) && NoStops(false, "(", rest) && NoStops(false, ")", rest)
    ensures !EndsInWord(false, "`$\"")
  {
    var open := "`$\"";
    assert open[1..] == "$\"" && open[1..][1..] == "\"" && open[1..][1..][1..] == [];
    assert "("[1..] == [] && ")"[1..] == [];
    assert (open + rest)[0] == '`' && ("$\"" + rest)[0] == '$' && ("\"" + rest)[0] == '"';
  }

  lemma {:induction false} OneCharWhole(prev: bool, c: char, rest: string)
    requires c == '"' || c == ';'
    ensures NoStops(prev, [c], rest) && !EndsInWord(prev, [c])
  {
    assert [c][1..] == [] && ([c] + rest)[0] == c;
  }

  lemma {:induction false} QSymWhole(sym: string, rest: string)
    requires Readable(false, sym)
    ensures NoStops(false, QSym(sym), rest) && !EndsInWord(false, QSym(sym))
  {
    hide NoStops, Readable, EndsInWord;
    var open, close := "`$\"", "\"";
    assert QSym(sym) == open + (sym + close) && sym + close + rest == sym + (close + rest);
    OpenQuoteWhole(sym + close + rest);
    ReadableIsWhole(false, sym, close + rest);
    OneCharWhole(EndsInWord(false, sym), '"', rest);
    NoStopsSplits(false, sym, close, rest);
    NoStopsSplits(false, open, sym + close, rest);
    EndsConcat(false, open, sym + close);
    EndsConcat(false, sym, close);
  }

  lemma {:induction false} JoinedWhole(syms: seq<string>, rest: string)
    requires syms != [] && forall s :: s in syms ==> Readable(false, s)
    ensures NoStops(false, Joined(syms), rest) && !EndsInWord(false, Joined(syms))
  {
    hide NoStops, Readable, EndsInWord, QSym;
    assert syms[0] in syms;
    if |syms| == 1 {
      QSymWhole(syms[0], rest);
    } else {
      var first, more := QSym(syms[0]), Joined(syms[1..]);
      JoinedWhole(syms[1..], rest);
      QSymWhole(syms[0], ";" + more + rest);
      assert Joined(syms) == first + (";" + more) && ";" + more + rest == ";" + (more + rest);
      OneCharWhole(EndsInWord(false, first), ';', more + rest);
      NoStopsSplits(EndsInWord(false, first), ";", more, rest);
      NoStopsSplits(false, first, ";" + more, rest);
      EndsConcat(false, first, ";" + more);
      EndsConcat(EndsInWord(false, first), ";", more);
    }
  }

  lemma {:induction false} BodyWhole(syms: seq<string>)
    requires syms != [] && forall s :: s in syms ==> Readable(false, s)
    ensures Span(false, Body(syms)) == Body(syms)
  {
    hide NoStops, Readable, EndsInWord, QSym, Joined;
    var body := Body(syms);
    if |syms| == 1 {
      assert syms[0] in syms;
      QSymWhole(syms[0], []);
    } else {
      var joined := Joined(syms);
      JoinedWhole(syms, ")");
      OpenQuoteWhole(joined + ")");
      OpenQuoteWhole([]);
      assert body == "(" + (joined + ")") && ")" + [] == ")" && joined + ")" + [] == joined + ")";
      EndsByDef("(");
      NoStopsSplits(false, joined, ")", []);
      NoStopsSplits(false, "(", joined + ")", []);
    }
    SpanIs(false, body, []);
    assert body + [] == body && Span(EndsInWord(false, body), []) == [];
  }

  lemma {:induction false} EndsByDef(x: string)
    requires x != []
    ensures EndsInWord(false, x) == IsWord(x[|x| - 1])
  {
  }

  /** A literal is one cast and no token. */
  lemma {:induction false} CastOne(sym: string, rest: string)
    requires Castable(sym)
    ensures Casts(QSym(sym) + rest) == [sym] + Casts(rest) && Tokens(QSym(sym) + rest) == Tokens(rest)
  {
    var s := QSym(sym) + rest;
    var after := sym + ("\"" + rest);
    assert s == "`$\"" + after && s[3..] == after;
    QuoteRunIs(sym, rest);
    assert s[3..3 + |sym|] == sym && s[4 + |sym|..] == rest;
    OpenQuoteTokens(after);
    NoTickTokens(sym, "\"" + rest);
    NoTickTokens("\"", rest);
  }

  lemma {:induction false} QuoteRunIs(sym: string, rest: string)
    requires '"' !in sym
    ensures QuoteRun(sym + ("\"" + rest)) == |sym|
  {
    var s := sym + ("\"" + rest);
    if sym != [] {
      assert s[1..] == sym[1..] + ("\"" + rest) && s[0] == sym[0];
      QuoteRunIs(sym[1..], rest);
    }
  }

  lemma {:induction false} OpenQuoteTokens(rest: string)
    ensures Tokens("`$\"" + rest) == Tokens(rest)
  {
    var s := "`$\"" + rest;
    assert s[1..] == "$\"" + rest && NameRun(s[1..]) == 0;
    assert Tokens(s) == Tokens("$\"" + rest);
    NoTickTokens("$\"", rest);
  }

  lemma {:induction false} NoTickTokens(x: string, rest: string)
    requires '`' !in x
    ensures Tokens(x + rest) == Tokens(rest) && Casts(x + rest) == Casts(rest)
    decreases |x|
  {
    if x == [] {
      assert x + rest == rest;
    } else {
      assert (x + rest)[1..] == x[1..] + rest && (x + rest)[0] == x[0];
      NoTickTokens(x[1..], rest);
    }
  }

  lemma {:induction false} JoinedCasts(syms: seq<string>, rest: string)
    requires forall s :: s in syms ==> Castable(s)
    ensures Casts(Joined(syms) + rest) == syms + Casts(rest) && Tokens(Joined(syms) + rest) == Tokens(rest)
  {
    hide Casts, Tokens, QSym;
    if syms == [] {
      assert Joined(syms) + rest == rest && syms + Casts(rest) == Casts(rest);
    } else if |syms| == 1 {
      CastOne(syms[0], rest);
      assert syms == [syms[0]];
    } else {
      var first, others := syms[0], syms[1..];
      JoinedCasts(others, rest);
      var more, casts := Joined(others) + rest, Casts(rest);
      assert Joined(syms) + rest == QSym(first) + (";" + more);
      hide Joined, Castable;
      CastOne(first, ";" + more);
      NoTickTokens(";", more);
      assert syms + casts == [first] + (others + casts);
    }
  }

  lemma {:induction false} NothingIn(x: string)
    requires '`' !in x
    ensures Tokens(x) == [] && Casts(x) == []
  {
    NoTickTokens(x, []);
    assert x + [] == x;
  }

  lemma {:induction false} BodyCasts(syms: seq<string>)
    requires forall s :: s in syms ==> Castable(s)
    ensures Casts(Body(syms)) == syms && Tokens(Body(syms)) == []
  {
    hide Casts, Tokens, QSym, Joined;
    NothingIn([]);
    NothingIn(")");
    if |syms| == 1 {
      CastOne(syms[0], []);
      assert QSym(syms[0]) + [] == QSym(syms[0]) && [syms[0]] == syms;
    } else {
      JoinedCasts(syms, ")");
      NoTickTokens("(", Joined(syms) + ")");
      assert Body(syms) == "(" + (Joined(syms) + ")");
    }
  }

  ghost predicate AllCastable(syms: seq<string>) {
    forall s :: s in syms ==> Castable(s)
  }

  ghost predicate AllReadable(syms: seq<string>) {
    forall s :: s in syms ==> Readable(false, s)
  }

  lemma {:induction false} TapeRead(syms: seq<string>)
    requires syms != [] && AllCastable(syms) && AllReadable(syms)
    ensures ReadFrom(TapeQuery(syms)) == Members(syms)
  {
    hide Castable, Readable, Casts, Tokens, Body, TapeQuery, Span, Clauses, ReadIn;
    var body := Body(syms);
    TapeClauses(syms);
    BodyWhole(syms);
    BodyCasts(syms);
    assert body[|body|..] == [];
    NothingAfter(EndsInWord(false, body));
    ReadInFront(body, []);
    assert Clauses(false, TapeQuery(syms)) == [body] + [];
    NothingRead();
  }

  /** Exactly when the router reads all of a platform query's list and nothing else: when no symbol of it
      holds a comma or the word `by`. */
  lemma {:induction false} TapeReadIff(syms: seq<string>)
    requires syms != [] && AllCastable(syms)
    ensures ReadFrom(TapeQuery(syms)) == Members(syms) <==> AllReadable(syms)
  {
    hide Castable, Readable, TapeQuery;
    if AllReadable(syms) {
      TapeRead(syms);
    } else {
      var s :| s in syms && !Readable(false, s);
      ReadIsReadable(false, TapeQuery(syms));
      assert s in Members(syms);
    }
  }

  // ------------------------------------------------------------------ lists of bare tokens

  /** The characters of `\w`, and those of a token, by their codes. */
  lemma {:induction false} WordCharacters(c: char)
    ensures var code := c as int;
            IsWord(c) <==> 48 <= code <= 57 || 65 <= code <= 90 || 97 <= code <= 122 || code == 95
    ensures IsName(c) <==> IsWord(c) || c as int == 46
  {
  }

  /** Names with a backtick before each. */
  function Ticks(names: seq<string>): string {
    if names == [] then [] else "`" + (names[0] + Ticks(names[1..]))
  }

  ghost predicate IsNameText(s: string) {
    s != "" && forall c :: c in s ==> IsName(c)
  }

  ghost predicate AllNameTexts(names: seq<string>) {
    forall s :: s in names ==> IsNameText(s)
  }

  lemma {:induction false} NameRunIs(name: string, rest: string)
    requires (forall c :: c in name ==> IsName(c)) && (rest == [] || !IsName(rest[0]))
    ensures NameRun(name + rest) == |name|
  {
    if name == [] {
      assert name + rest == rest;
    } else {
      assert (name + rest)[0] == name[0] && (name + rest)[1..] == name[1..] + rest;
      NameRunIs(name[1..], rest);
    }
  }

  lemma {:induction false} TickTokens(names: seq<string>)
    requires AllNameTexts(names)
    ensures Tokens(Ticks(names)) == names && Casts(Ticks(names)) == []
  {
    if names != [] {
      var name, more := names[0], Ticks(names[1..]);
      var s := Ticks(names);
      assert name in names && IsNameText(name) && name[0] in name && '`' !in name;
      assert s[1..] == name + more && s[1 + |name|..] == more && s[1] == name[0];
      NameRunIs(name, more);
      NoTickTokens(name, more);
      TickTokens(names[1..]);
      assert !("`$\"" <= s) by {
        assert "`$\""[1] == '$';
      }
      assert s[1..1 + |name|] == name && names == [name] + names[1..];
    }
  }

  lemma {:induction false} TickNoStop(prev: bool, rest: string)
    ensures NoStops(prev, "`", rest) && !EndsInWord(prev, "`")
  {
    assert "`"[1..] == [] && ("`" + rest)[0] == '`';
  }

  lemma {:induction false} NameNoStop(name: string, names: seq<string>)
    requires Readable(false, name) && IsNameText(name)
    ensures NoStops(false, name, Ticks(names))
  {
    assert name[|name| - 1] in name;
    ReadableIsWhole(false, name, Ticks(names));
  }

  lemma {:induction false} TicksWhole(prev: bool, names: seq<string>)
    requires AllNameTexts(names) && AllReadable(names)
    ensures NoStops(prev, Ticks(names), [])
    decreases |names|
  {
    hide NoStops, Readable, EndsInWord, IsNameText;
    if names == [] {
      NoStopsNone(prev, []);
    } else {
      var name, more := names[0], Ticks(names[1..]);
      assert name in names;
      NameNoStop(name, names[1..]);
      TickNoStop(prev, name + more);
      TicksWhole(EndsInWord(false, name), names[1..]);
      assert name + more + [] == name + more && more + [] == more;
      NoStopsSplits(false, name, more, []);
      NoStopsSplits(prev, "`", name + more, []);
    }
  }

  lemma {:induction false} TicksHeads(names: seq<string>)
    requires names != []
    ensures Head(false, "sym=" + Ticks(names)) == Some(4) && Head(false, "sym in " + Ticks(names)) == Some(7)
  {
    HeadsMatch(Ticks(names));
  }

  lemma {:induction false} TicksRead(pre: string, head: string, names: seq<string>)
    requires NoHeads(pre) && !EndsInWord(false, pre) && (head == "sym=" || head == "sym in ")
    requires names != [] && AllNameTexts(names) && AllReadable(names)
    ensures ReadFrom(pre + (head + Ticks(names))) == Members(names)
  {
    var body := Ticks(names);
    TicksHeads(names);
    assert !IsWord(head[|head| - 1]);
    hide Head, Tokens, Casts, Span, Clauses, ReadIn, NoHeads, EndsInWord, IsWord, Ticks;
    SkipPrefix(false, pre, head + body);
    HeadClause(head, body);
    TicksWhole(false, names);
    SpanIs(false, body, []);
    SpanOfNothing(EndsInWord(false, body));
    assert body + [] == body;
    assert body[|body|..] == [];
    NothingAfter(EndsInWord(false, body));
    TickTokens(names);
    ReadInFront(body, []);
    assert Clauses(false, pre + (head + body)) == [body] + [];
    NothingRead();
  }

  lemma {:induction false} SpanOfNothing(prev: bool)
    ensures Span(prev, []) == []
  {
  }

  /** Of a list of bare tokens, after any text without such a clause, exactly its names are read, unless one
      of them holds the word `by`. */
  lemma {:induction false} TicksReadIff(pre: string, head: string, names: seq<string>)
    requires NoHeads(pre) && !EndsInWord(false, pre) && (head == "sym=" || head == "sym in ")
    requires names != [] && AllNameTexts(names)
    ensures ReadFrom(pre + (head + Ticks(names))) == Members(names) <==> AllReadable(names)
  {
    hide Readable, NoHeads, EndsInWord, Ticks, IsNameText;
    if AllReadable(names) {
      TicksRead(pre, head, names);
    } else {
      var s :| s in names && !Readable(false, s);
      ReadIsReadable(false, pre + (head + Ticks(names)));
      assert s in Members(names);
    }
  }

  // ------------------------------------------------------------------ what the gateway then asks

  /** The query as the shards see it: one list of literals. */
  function TapeClause(syms: seq<string>): seq<Clause> {
    [SymIn(seq(|syms|, i requires 0 <= i < |syms| => Literal(syms[i])))]
  }

  lemma {:induction false} TapeLiterals(syms: seq<string>)
    ensures Confident(TapeClause(syms)) && Literals(TapeClause(syms)) == Members(syms)
  {
    var q := TapeClause(syms);
    var terms := q[0].terms;
    assert AllLiteral(q[0]);
    assert q[1..] == [] && Literals(q) == LiteralsOf(q[0]) + {};
    forall x
      ensures x in LiteralsOf(q[0]) <==> x in syms
    {
      if x in syms {
        var i :| 0 <= i < |syms| && syms[i] == x;
        assert terms[i].Literal? && terms[i].sym == x;
      }
    }
  }

  /** From rows to text and back: publish rows by owner, write a list of readable symbols as a query, ask
      the shards the router reads out of the text; the answer is the published rows of those symbols. */
  lemma {:induction false} TapeAnswered(alphabet: string, n: nat, rows: seq<Row>, syms: seq<string>, env: Env)
    requires 1 <= n <= |alphabet| && Stamped(alphabet, n, rows)
    requires syms != [] && AllCastable(syms) && AllReadable(syms)
    ensures var asked := AskedFor(alphabet, ReadFrom(TapeQuery(syms)), n);
            && Within(asked, n)
            && multiset(Answer(TapeClause(syms), env, Stores(rows, n), asked))
               == multiset(Select(TapeClause(syms), env, rows))
  {
    hide Answer, Select, Stores, AskedFor, Literals, Confident, TapeClause, TapeQuery;
    TapeRead(syms);
    TapeLiterals(syms);
    PublishedThenQueried(alphabet, n, rows, TapeClause(syms), env);
  }

  // ------------------------------------------------------------------ symbols that are cut

  /** A symbol that is not readable ends its clause before it ends itself. */
  lemma {:induction false} CutShort(prev: bool, s: string, rest: string)
    requires !Readable(prev, s) && rest != [] && !IsWord(rest[0])
    ensures |Span(prev, s + rest)| < |s|
    decreases |s|
  {
    var all := s + rest;
    if !Stops(prev, all) {
      assert all[0] == s[0] && all[1..] == s[1..] + rest;
      assert !ByAt(prev, s) by {
        if |s| >= 2 {
          assert all[1] == s[1];
          assert |s| > 2 ==> all[2] == s[2];
        }
      }
      CutShort(IsWord(s[0]), s[1..], rest);
    }
  }

  /** Nothing is read from a text without backticks. */
  lemma {:induction false} NoTickNothing(prev: bool, s: string)
    requires '`' !in s
    ensures ReadIn(Clauses(prev, s)) == {}
    decreases |s|
  {
    hide Span, Clauses, Head, Tokens, Casts, IsWord, EndsInWord, ReadIn;
    NothingRead();
    if s == [] {
      NothingAfter(prev);
      return;
    }
    var head := Head(prev, s);
    if head.None? {
      ClausesSkip(prev, s);
      NoTickNothing(IsWord(s[0]), s[1..]);
    } else {
      var p, body := IsWord(s[head.value - 1]), s[head.value..];
      var x := Span(p, body);
      ClausesStep(prev, s, head.value, body);
      assert '`' !in body && '`' !in body[..|x|] && '`' !in body[|x|..];
      NothingIn(x);
      NoTickNothing(EndsInWord(p, x), body[|x|..]);
      ReadInFront(x, Clauses(EndsInWord(p, x), body[|x|..]));
    }
  }

  /** An open quote without its end is neither a token nor a cast. */
  lemma {:induction false} OpenQuoteNothing(u: string)
    requires '`' !in u && '"' !in u
    ensures Tokens("`$\"" + u) == [] && Casts("`$\"" + u) == []
  {
    var s := "`$\"" + u;
    OpenQuoteTokens(u);
    NothingIn(u);
    assert s[3..] == u;
    QuoteRunAll(u);
    assert s[1..] == "$\"" + u;
    NothingIn(s[1..]);
  }

  lemma {:induction false} QuoteRunAll(u: string)
    requires '"' !in u
    ensures QuoteRun(u) == |u|
  {
    if u != [] {
      QuoteRunAll(u[1..]);
    }
  }

  /** The body of a pair up to the text of its second symbol. */
  function PairFront(o: string): string {
    "(" + (QSym(o) + ";") + "`$\""
  }

  /** The clause of a pair whose second symbol is not readable, and what is left of the text. */
  lemma {:induction false} PairClauses(o: string, s: string) returns (u: string, prev: bool, after: string)
    requires Readable(false, o) && Castable(s) && !Readable(false, s)
    ensures '`' !in u && '"' !in u && '`' !in after
    ensures Clauses(false, TapeQuery([o, s])) == [PairFront(o) + u] + Clauses(prev, after)
  {
    var rest := "\")";
    CutShort(false, s, rest);
    hide Span, Clauses, Readable, PairFront, Body, TapeQuery, EndsInWord;
    u := Span(false, s + rest);
    Cut(s, rest, |u|);
    after := s[|u|..] + rest;
    NoTickParts(s, |u|, rest);
    hide Castable;
    var front, tail := PairFront(o), s + rest;
    PairBody(o, s);
    PairSpan(o, tail);
    TapeClauses([o, s]);
    prev := EndsInWord(false, front + u);
    SameFront(front, tail, |u|);
  }

  lemma {:induction false} NoTickParts(s: string, k: nat, rest: string)
    requires k <= |s| && Castable(s) && '`' !in rest
    ensures '`' !in s[..k] && '"' !in s[..k] && '`' !in s[k..] + rest
  {
  }

  lemma {:induction false} Cut(s: string, rest: string, k: nat)
    requires k <= |s|
    ensures (s + rest)[..k] == s[..k] && (s + rest)[k..] == s[k..] + rest
  {
  }

  lemma {:induction false} SameFront(front: string, s: string, k: nat)
    requires k <= |s|
    ensures (front + s)[|front + s[..k]|..] == s[k..]
  {
  }

  /** The second symbol of a pair is lost when it is not readable, and the first is read all the same. */
  lemma {:induction false} PairIsCut(o: string, s: string)
    requires Castable(o) && Readable(false, o) && Castable(s) && !Readable(false, s)
    ensures ReadFrom(TapeQuery([o, s])) == {o}
  {
    hide Clauses, Readable, QSym, TapeQuery, Tokens, Casts, ReadIn, Castable;
    var u, prev, after := PairClauses(o, s);
    PairCasts(o, u);
    NoTickNothing(prev, after);
    hide PairFront;
    ReadInFront(PairFront(o) + u, Clauses(prev, after));
    assert Members([o]) == {o};
    NothingRead();
  }

  lemma {:induction false} PairCasts(o: string, u: string)
    requires Castable(o) && '`' !in u && '"' !in u
    ensures Tokens(PairFront(o) + u) == [] && Casts(PairFront(o) + u) == [o]
  {
    hide Tokens, Casts, QSym, Castable;
    var tail := "`$\"" + u;
    OpenQuoteNothing(u);
    NoTickTokens(";", tail);
    CastOne(o, ";" + tail);
    NoTickTokens("(", QSym(o) + (";" + tail));
    assert PairFront(o) + u == "(" + (QSym(o) + (";" + tail));
  }

  lemma {:induction false} PairBody(o: string, s: string)
    ensures Body([o, s]) == PairFront(o) + (s + "\")")
  {
    hide QSym;
    assert [o, s][1..] == [s];
    assert Joined([s]) == QSym(s);
    CloseParen(s);
    var left, right := "(" + (QSym(o) + ";"), s + "\")";
    assert Body([o, s]) == left + (QSym(s) + ")");
    assert left + ("`$\"" + right) == left + "`$\"" + right;
  }

  lemma {:induction false} CloseParen(s: string)
    ensures QSym(s) + ")" == "`$\"" + (s + "\")")
  {
    assert "\"" + ")" == "\")";
  }

  /** The clause of a pair runs over the first symbol and into the second. */
  lemma {:induction false} PairSpan(o: string, after: string)
    requires Readable(false, o)
    ensures Span(false, PairFront(o) + after) == PairFront(o) + Span(false, after)
  {
    hide NoStops, Readable, EndsInWord, Span, QSym;
    var open := "`$\"";
    var middle := QSym(o) + ";";
    var front := "(" + middle;
    OpenQuoteWhole(middle + (open + after));
    EndsByDef("(");
    QSymWhole(o, ";" + (open + after));
    OneCharWhole(EndsInWord(false, QSym(o)), ';', open + after);
    assert QSym(o) + (";" + (open + after)) == middle + (open + after);
    NoStopsSplits(false, QSym(o), ";", open + after);
    NoStopsSplits(false, "(", middle, open + after);
    EndsConcat(false, QSym(o), ";");
    EndsConcat(false, "(", middle);
    OpenQuoteWhole(after);
    NoStopsSplits(false, front, open, after);
    EndsConcat(false, front, open);
    SpanIs(false, front + open, after);
  }

  lemma {:induction false} LetterIsPlain(c: char)
    requires 'A' <= c <= 'Z'
    ensures Castable([c]) && Readable(false, [c])
  {
    assert [c][1..] == [];
  }

  lemma {:induction false} LettersAreCapitals(c: char)
    requires c in AlphabetAZ
    ensures 'A' <= c <= 'Z' && Upper(c) == c
  {
  }

  /** A symbol is asked for in every pair it comes second in exactly when it is readable. So one with a
      comma or the word `by` in it, such as the ticker BY, is lost next to a symbol of another shard. */
  lemma {:induction false} NeverLostIff(n: nat, s: string)
    requires 2 <= n <= 26 && Castable(s)
    ensures (forall o :: Castable(o) && Readable(false, o) ==>
               ShardOf(AlphabetAZ, s, n) in AskedFor(AlphabetAZ, ReadFrom(TapeQuery([o, s])), n))
       <==> Readable(false, s)
  {
    hide ShardOf, AskedFor, ReadFrom, TapeQuery, Castable, Readable;
    var home := ShardOf(AlphabetAZ, s, n);
    if Readable(false, s) {
      forall o | Castable(o) && Readable(false, o)
        ensures home in AskedFor(AlphabetAZ, ReadFrom(TapeQuery([o, s])), n)
      {
        TapeRead([o, s]);
        assert s in Members([o, s]);
        AskedForIff(AlphabetAZ, Members([o, s]), n, home);
      }
    } else {
      var away := if home == 0 then 1 else 0;
      var o := LetterOf(n, away);
      PairIsCut(o, s);
      AskedForIff(AlphabetAZ, {o}, n, home);
      assert home !in AskedFor(AlphabetAZ, ReadFrom(TapeQuery([o, s])), n);
    }
  }

  lemma {:induction false} LetterOf(n: nat, i: nat) returns (o: string)
    requires 1 <= n <= 26 && i < n
    ensures Castable(o) && Readable(false, o) && ShardOf(AlphabetAZ, o, n) == i
  {
    hide ShardOf, Castable, Readable;
    AlphabetAZIncreasing();
    forall c | c in AlphabetAZ
      ensures Upper(c) == c
    {
      LettersAreCapitals(c);
    }
    o := EveryShardOwnsSomething(AlphabetAZ, n, i);
    LettersAreCapitals(o[0]);
    LetterIsPlain(o[0]);
    assert o == [o[0]];
  }

  /** The ticker BY, asked for together with ZM over two shards: only the shard of ZM is asked. */
  lemma {:induction false} ByIsLost()
    ensures var query := TapeQuery(["ZM", "BY"]);
            ReadFrom(query) == {"ZM"}
            && ShardOf(AlphabetAZ, "BY", 2) !in AskedFor(AlphabetAZ, ReadFrom(query), 2)
  {
    hide ShardOf, AskedFor, ReadFrom, TapeQuery;
    assert "ZM"[1..] == "M" && "ZM"[1..][1..] == [];
    assert ByAt(false, "BY");
    PairIsCut("ZM", "BY");
    AlphabetAZIncreasing();
    TwoShardsAreAMandNZ();
    assert FirstLetter(AlphabetAZ, "BY") == Some('B');
    ShardOfIffRange(AlphabetAZ, "BY", 2, 0);
    OwnersOfTheTwo();
    AskedForIff(AlphabetAZ, {"ZM"}, 2, 0);
  }

  // ------------------------------------------------------------------ lists that are computed

  function InQuery(expr: string): string {
    "select " + (From + ("sym in " + expr))
  }

  lemma {:induction false} SelectFrom()
    ensures NoHeads("select " + From) && !EndsInWord(false, "select " + From)
  {
    hide NoHeads;
    assert "select "[1..] == "elect ";
    FirstS("select ");
    NoSNoHeads(From);
    NoHeadsConcat("select ", From);
    var pre := "select " + From;
    assert pre[|pre| - 1] == From[|From| - 1] == ' ';
  }

  lemma {:induction false} InQueryHead(expr: string)
    requires expr != [] && !IsSpace(expr[0])
    ensures var x := Span(false, expr);
            Clauses(false, InQuery(expr)) == [x] + Clauses(EndsInWord(false, x), expr[|x|..])
  {
    hide NoHeads, Span, Head, Clauses;
    var pre := "select " + From;
    SelectFrom();
    assert InQuery(expr) == pre + ("sym in " + expr);
    SkipPrefix(false, pre, "sym in " + expr);
    HeadsMatch(expr);
    HeadClause("sym in ", expr);
  }

  lemma {:induction false} NothingLeft(prev: bool)
    ensures Span(prev, []) == []
  {
  }

  /** Of an expression no clause ends in, the router reads the tokens and casts. */
  lemma {:induction false} InQueryReads(expr: string)
    requires expr != [] && !IsSpace(expr[0]) && Readable(false, expr) && expr[|expr| - 1] != '\n'
    ensures ReadFrom(InQuery(expr)) == Members(Tokens(expr)) + Members(Casts(expr))
  {
    hide InQuery, Span, Tokens, Casts, ReadIn, EndsInWord, Clauses, Readable, NoStops;
    InQueryHead(expr);
    ReadableIsWhole(false, expr, []);
    SpanIs(false, expr, []);
    NothingLeft(EndsInWord(false, expr));
    assert expr + [] == expr && expr[|expr|..] == [];
    NothingAfter(EndsInWord(false, expr));
    ReadInFront(expr, []);
    NothingRead();
  }

  /** A backtick with a name after it. */
  predicate TokenAt(s: string, i: nat) {
    i + 1 < |s| && s[i] == '`' && IsName(s[i + 1])
  }

  /** A quoted text behind a backtick and a dollar, not empty and closed. */
  predicate CastAt(s: string, i: nat) {
    i < |s| && "`$\"" <= s[i..] && 0 < QuoteRun(s[i..][3..]) < |s[i..]| - 3
  }

  lemma {:induction false} NoTokensIff(s: string)
    ensures Tokens(s) == [] <==> forall i :: 0 <= i < |s| ==> !TokenAt(s, i)
  {
    if s != [] {
      var rest := s[1..];
      NoTokensIff(rest);
      assert forall i :: 0 <= i < |rest| ==> (TokenAt(rest, i) <==> TokenAt(s, i + 1));
      assert NameRun(rest) > 0 <==> |s| > 1 && IsName(s[1]);
      if !TokenAt(s, 0) {
        forall i | 0 <= i < |s|
          ensures TokenAt(s, i) <==> i > 0 && TokenAt(rest, i - 1)
        {
        }
      }
    }
  }

  lemma {:induction false} NoCastsIff(s: string)
    ensures Casts(s) == [] <==> forall i :: 0 <= i < |s| ==> !CastAt(s, i)
    decreases |s|
  {
    if s != [] {
      var rest := s[1..];
      NoCastsIff(rest);
      CastsFront(s);
      hide CastAt, Casts;
      forall i | 0 < i < |s|
        ensures CastAt(s, i) <==> CastAt(rest, i - 1)
      {
        CastShifts(s, i);
      }
      assert forall i :: 0 <= i < |rest| ==> (CastAt(rest, i) <==> CastAt(s, i + 1));
    }
  }

  lemma {:induction false} CastsFront(s: string)
    requires s != []
    ensures if CastAt(s, 0) then Casts(s) != [] else Casts(s) == Casts(s[1..])
  {
    hide QuoteRun;
    assert s[0..] == s;
  }

  lemma {:induction false} CastShifts(s: string, i: nat)
    requires 0 < i < |s|
    ensures CastAt(s, i) <==> CastAt(s[1..], i - 1)
  {
    hide QuoteRun;
    assert s[i..] == s[1..][i - 1..];
  }

  /** A symbol list that is computed makes the router ask every shard, as it promises, exactly when no
      literal stands anywhere in the expression. */
  lemma {:induction false} ComputedFallsBackIff(expr: string)
    requires expr != [] && !IsSpace(expr[0]) && Readable(false, expr) && expr[|expr| - 1] != '\n'
    ensures ReadFrom(InQuery(expr)) == {} <==> forall i :: 0 <= i < |expr| ==> !TokenAt(expr, i) && !CastAt(expr, i)
  {
    hide InQuery, ReadFrom, Tokens, Casts, TokenAt, CastAt, Readable;
    InQueryReads(expr);
    NoTokensIff(expr);
    NoCastsIff(expr);
    if Tokens(expr) != [] {
      assert Tokens(expr)[0] in Members(Tokens(expr));
    }
    if Casts(expr) != [] {
      assert Casts(expr)[0] in Members(Casts(expr));
    }
  }

  /** A query of the assistant's own instructions (control-api/app/nl2q.py): its symbols come from a query
      inside it, whose only literal is a status. */
  const Inner := "exec distinct " + "sym from risk " + "where status="
  const NestedQuery := InQuery(Inner + "`breach")

  predicate Plain(x: string) {
    forall c :: c in x ==> c != ',' && c != '`' && Upper(c) != 'B'
  }

  lemma {:induction false} PlainIsReadable(prev: bool, x: string)
    requires Plain(x)
    ensures Readable(prev, x)
    decreases |x|
  {
    if x != [] {
      assert x[0] in x && forall c :: c in x[1..] ==> c in x;
      PlainIsReadable(IsWord(x[0]), x[1..]);
    }
  }

  lemma {:induction false} BreachIsReadable()
    ensures Readable(false, "`breach")
  {
    var s, word := "`breach", "breach";
    assert s[1..] == word && word[1..] == "reach";
    PlainIsReadable(true, "reach");
  }

  lemma {:induction false} BreachIsToken()
    ensures Tokens("`breach") == ["breach"] && Casts("`breach") == []
  {
    var word := "breach";
    BreachIsName();
    NameToken(word);
    assert "`" + word == "`breach";
  }

  lemma {:induction false} BreachIsName()
    ensures "breach" != [] && forall c :: c in "breach" ==> IsName(c)
  {
  }

  /** A backtick and a name are one token and no cast. */
  lemma {:induction false} NameToken(word: string)
    requires word != [] && forall c :: c in word ==> IsName(c)
    ensures Tokens("`" + word) == [word] && Casts("`" + word) == []
  {
    hide NameRun, QuoteRun, IsName;
    var s := "`" + word;
    assert s[1..] == word && s[1..1 + |word|] == word && s[1 + |word|..] == [];
    NameRunAll(word);
    NamesHaveNoTick(word);
    NothingIn(word);
    assert s[1] == word[0] && word[0] in word;
  }

  lemma {:induction false} NamesHaveNoTick(word: string)
    requires forall c :: c in word ==> IsName(c)
    ensures '`' !in word && '$' !in word
  {
  }

  lemma {:induction false} NameRunAll(x: string)
    requires forall c :: c in x ==> IsName(c)
    ensures NameRun(x) == |x|
  {
    if x != [] {
      assert x == [x[0]] + x[1..];
      NameRunAll(x[1..]);
    }
  }

  lemma {:induction false} ExecIsPlain()
    ensures Plain("exec distinct ")
  {
  }

  lemma {:induction false} RiskIsPlain()
    ensures Plain("sym from risk ")
  {
  }

  lemma {:induction false} StatusIsPlain()
    ensures Plain("where status=")
  {
  }

  lemma {:induction false} PlainConcat(a: string, b: string)
    requires Plain(a) && Plain(b)
    ensures Plain(a + b)
  {
  }

  lemma {:induction false} PlainHasNoTick(x: string)
    requires Plain(x)
    ensures '`' !in x
  {
  }

  lemma {:induction false} InnerIsPlain()
    ensures Readable(false, Inner) && '`' !in Inner && !EndsInWord(false, Inner)
  {
    hide Plain;
    ExecIsPlain();
    RiskIsPlain();
    StatusIsPlain();
    PlainConcat("exec distinct ", "sym from risk ");
    PlainConcat("exec distinct " + "sym from risk ", "where status=");
    PlainIsReadable(false, Inner);
    PlainHasNoTick(Inner);
    assert Inner[|Inner| - 1] == '=';
  }

  lemma {:induction false} NestedReadable()
    ensures Readable(false, Inner + "`breach")
  {
    var last := "`breach";
    InnerIsPlain();
    BreachIsReadable();
    hide Readable, NoStops, EndsInWord;
    ReadableIsWhole(false, Inner, last + []);
    ReadableIsWhole(false, last, []);
    NoStopsSplits(false, Inner, last, []);
    WholeIsReadable(false, Inner + last, []);
  }

  /** The router reads the status as the one symbol the query asks for. */
  lemma {:induction false} NestedIsMisread()
    ensures ReadFrom(NestedQuery) == {"breach"}
    ensures AskedFor(AlphabetAZ, ReadFrom(NestedQuery), 2) == [0]
  {
    hide Tokens, Casts, AskedFor, ReadFrom, InQuery, Readable;
    var body := Inner + "`breach";
    NestedReadable();
    InnerIsPlain();
    assert body[0] == 'e' && body[|body| - 1] == 'h';
    InQueryReads(body);
    BreachIsToken();
    NoTickTokens(Inner, "`breach");
    assert Members(["breach"]) == {"breach"} && Members([]) == {};
    BreachShard();
  }

  lemma {:induction false} BreachShard()
    ensures AskedFor(AlphabetAZ, {"breach"}, 2) == [0]
  {
    hide ShardOf;
    AlphabetAZIncreasing();
    TwoShardsAreAMandNZ();
    assert FirstLetter(AlphabetAZ, "breach") == Some('B');
    ShardOfIffRange(AlphabetAZ, "breach", 2, 0);
    assert Owners(AlphabetAZ, {"breach"}, 2) == {0};
    assert SortedIds({0}, 1) == [0] && SortedIds({0}, 2) == [0];
  }
}
