/** Shard topology (control-api/app/topology.py and its copies): contiguous, as even as possible
    letter ranges, the shard that owns a symbol, and the names of the per-shard services.

    The program fixes the alphabet to A-Z; here it is any strictly increasing string. */
module Topology {
  import opened Common
  import opened Text

  datatype Outcome<+T> = Ok(value: T) | ValueError

  const AlphabetAZ := "ABCDEFGHIJKLMNOPQRSTUVWXYZ"

  ghost predicate Increasing(alphabet: string) {
    forall i, j :: 0 <= i < j < |alphabet| ==> alphabet[i] < alphabet[j]
  }

  lemma {:induction false} AlphabetAZIncreasing()
    ensures Increasing(AlphabetAZ) && |AlphabetAZ| == 26
  {
  }

  // ------------------------------------------------------------------ letter ranges

  /** How many of `len` letters range `i` of `n` gets: the first `len % n` ranges one more. */
  function Size(len: nat, n: nat, i: nat): (s: nat)
    requires 1 <= n <= len
    ensures s >= 1
  {
    DivideAtLeastOne(len, n);
    len / n + if i < len % n then 1 else 0
  }

  lemma {:induction false} DivideAtLeastOne(len: nat, n: nat)
    requires 1 <= n <= len
    ensures len / n >= 1
  {
    assert len == n * (len / n) + len % n;
  }

  /** Where range `i` starts: after the letters of the ranges before it. */
  function Start(len: nat, n: nat, i: nat): nat
    requires 1 <= n <= len
  {
    if i == 0 then 0 else Start(len, n, i - 1) + Size(len, n, i - 1)
  }

  datatype Range = Range(lo: char, hi: char)

  /** The last range ends with the last letter: nothing is left over and nothing is missing. */
  lemma {:induction false} StartClosed(len: nat, n: nat, i: nat)
    requires 1 <= n <= len
    ensures Start(len, n, i) == i * (len / n) + (if i < len % n then i else len % n)
  {
    if i > 0 {
      StartClosed(len, n, i - 1);
      assert i * (len / n) == (i - 1) * (len / n) + len / n;
    }
  }

  lemma {:induction false} StartEnds(len: nat, n: nat)
    requires 1 <= n <= len
    ensures Start(len, n, n) == len
  {
    StartClosed(len, n, n);
    assert n * (len / n) + len % n == len;
  }

  lemma {:induction false} StartMonotone(len: nat, n: nat, i: nat, j: nat)
    requires 1 <= n <= len && i <= j
    ensures Start(len, n, i) + (j - i) <= Start(len, n, j)
    decreases j
  {
    if i < j {
      StartMonotone(len, n, i, j - 1);
    }
  }

  function RangeAt(alphabet: string, n: nat, i: nat): Range
    requires 1 <= n <= |alphabet| && i < n
  {
    StartEnds(|alphabet|, n);
    StartMonotone(|alphabet|, n, i + 1, n);
    Range(alphabet[Start(|alphabet|, n, i)], alphabet[Start(|alphabet|, n, i + 1) - 1])
  }

  function Ranges(alphabet: string, n: nat): (r: seq<Range>)
    requires 1 <= n <= |alphabet|
    ensures |r| == n
  {
    seq(n, i requires 0 <= i < n => RangeAt(alphabet, n, i))
  }

  /** The program's loop: walk the alphabet, cutting off one range at a time. */
  method LetterRanges(alphabet: string, n: int) returns (r: Outcome<seq<Range>>)
    ensures r.Ok? <==> 1 <= n <= |alphabet|
    ensures r.Ok? ==> r.value == Ranges(alphabet, n)
  {
    if n < 1 || n > |alphabet| {
      return ValueError;
    }
    var base, extra := |alphabet| / n, |alphabet| % n;
    var ranges: seq<Range> := [];
    var idx := 0;
    StartEnds(|alphabet|, n);
    for i := 0 to n
      invariant idx == Start(|alphabet|, n, i)
      invariant ranges == Ranges(alphabet, n)[..i]
    {
      var size := base + if i < extra then 1 else 0;
      StartMonotone(|alphabet|, n, i + 1, n);
      ranges := ranges + [Range(alphabet[idx], alphabet[idx + size - 1])];
      idx := idx + size;
    }
    return Ok(ranges);
  }

  predicate InRange(r: Range, c: char) {
    r.lo <= c <= r.hi
  }

  /** Position `k` of the alphabet lies in range `i` exactly when `i`'s span holds it. */
  lemma {:induction false} InRangeIff(alphabet: string, n: nat, i: nat, k: nat)
    requires Increasing(alphabet) && 1 <= n <= |alphabet| && i < n && k < |alphabet|
    ensures InRange(RangeAt(alphabet, n, i), alphabet[k])
        <==> Start(|alphabet|, n, i) <= k < Start(|alphabet|, n, i + 1)
  {
    StartEnds(|alphabet|, n);
    StartMonotone(|alphabet|, n, i + 1, n);
    var lo, hi := Start(|alphabet|, n, i), Start(|alphabet|, n, i + 1) - 1;
    assert k < lo ==> alphabet[k] < alphabet[lo];
    assert lo < k ==> alphabet[lo] < alphabet[k];
    assert k < hi ==> alphabet[k] < alphabet[hi];
    assert hi < k ==> alphabet[hi] < alphabet[k];
  }

  /** The range that holds position `k`, searched among the first `i`. */
  lemma {:induction false} SomeSpanHolds(len: nat, n: nat, i: nat, k: nat) returns (j: nat)
    requires 1 <= n <= len && k < Start(len, n, i)
    ensures j < i && Start(len, n, j) <= k < Start(len, n, j + 1)
  {
    if k >= Start(len, n, i - 1) {
      j := i - 1;
    } else {
      j := SomeSpanHolds(len, n, i - 1, k);
    }
  }

  /** The ranges partition the alphabet: every letter lies in exactly one, for any alphabet and any
      shard count the program accepts. */
  lemma {:induction false} RangesPartition(alphabet: string, n: nat, c: char) returns (i: nat)
    requires Increasing(alphabet) && 1 <= n <= |alphabet| && c in alphabet
    ensures i < n && InRange(Ranges(alphabet, n)[i], c)
    ensures forall j :: 0 <= j < n && InRange(Ranges(alphabet, n)[j], c) ==> j == i
  {
    var k :| 0 <= k < |alphabet| && alphabet[k] == c;
    StartEnds(|alphabet|, n);
    i := SomeSpanHolds(|alphabet|, n, n, k);
    InRangeIff(alphabet, n, i, k);
    forall j | 0 <= j < n && InRange(Ranges(alphabet, n)[j], c)
      ensures j == i
    {
      InRangeIff(alphabet, n, j, k);
      if j < i {
        StartMonotone(|alphabet|, n, j + 1, i);
      } else if i < j {
        StartMonotone(|alphabet|, n, i + 1, j);
      }
    }
  }

  /** As even as possible, larger ranges first, and each range starts with the letter that follows
      the end of the one before. */
  lemma {:induction false} RangesEvenAndContiguous(alphabet: string, n: nat, i: nat, j: nat) returns (k: nat)
    requires 1 <= n <= |alphabet| && i < j < n
    ensures Size(|alphabet|, n, j) <= Size(|alphabet|, n, i) <= Size(|alphabet|, n, j) + 1
    ensures k + 1 < |alphabet|
    ensures Ranges(alphabet, n)[i].hi == alphabet[k] && Ranges(alphabet, n)[i + 1].lo == alphabet[k + 1]
    ensures Ranges(alphabet, n)[0].lo == alphabet[0] && Ranges(alphabet, n)[n - 1].hi == alphabet[|alphabet| - 1]
  {
    var len := |alphabet|;
    StartEnds(len, n);
    StartMonotone(len, n, i + 1, n);
    k := Start(len, n, i + 1) - 1;
  }

  /** Two shards of A-Z are the split the platform first shipped with. */
  lemma {:induction false} TwoShardsAreAMandNZ()
    ensures Ranges(AlphabetAZ, 2) == [Range('A', 'M'), Range('N', 'Z')]
  {
    assert Start(26, 2, 0) == 0 && Start(26, 2, 1) == 13;
    StartEnds(26, 2);
  }

  // ------------------------------------------------------------------ the owner of a symbol

  /** The first letter of the symbol, wherever it stands. */
  function FirstLetter(alphabet: string, sym: string): (c: Option<char>)
    ensures c.Some? ==> c.value in alphabet
    decreases |sym|
  {
    if sym == [] then None
    else if Upper(sym[0]) in alphabet then Some(Upper(sym[0]))
    else FirstLetter(alphabet, sym[1..])
  }

  ghost predicate IsFirstLetter(alphabet: string, sym: string, k: nat) {
    && k < |sym| && Upper(sym[k]) in alphabet
    && forall j :: 0 <= j < k ==> Upper(sym[j]) !in alphabet
  }

  /** It is the letter before which there is none, and there is one unless the symbol has no letter. */
  lemma {:induction false} FirstLetterIs(alphabet: string, sym: string)
    ensures FirstLetter(alphabet, sym).None? <==> forall k :: 0 <= k < |sym| ==> Upper(sym[k]) !in alphabet
    ensures forall k: nat :: IsFirstLetter(alphabet, sym, k) ==> FirstLetter(alphabet, sym) == Some(Upper(sym[k]))
    decreases |sym|
  {
    if sym != [] && Upper(sym[0]) !in alphabet {
      FirstLetterIs(alphabet, sym[1..]);
      assert forall k :: 1 <= k < |sym| ==> sym[k] == sym[1..][k - 1];
      forall k: nat | IsFirstLetter(alphabet, sym, k)
        ensures FirstLetter(alphabet, sym) == Some(Upper(sym[k]))
      {
        assert IsFirstLetter(alphabet, sym[1..], k - 1);
      }
    }
  }

  /** The first range at or after `i` that holds `c`, or shard 0 when none does. */
  function FindShard(ranges: seq<Range>, c: char, i: nat): (s: nat)
    requires i <= |ranges|
    ensures s == 0 || s < |ranges|
    decreases |ranges| - i
  {
    if i == |ranges| then 0
    else if InRange(ranges[i], c) then i
    else FindShard(ranges, c, i + 1)
  }

  /** The index of the shard that owns a symbol; symbols without a letter go to shard 0. */
  function ShardOf(alphabet: string, sym: string, n: nat): (s: nat)
    requires 1 <= n <= |alphabet|
    ensures s < n
  {
    match FirstLetter(alphabet, sym)
    case None => 0
    case Some(c) => FindShard(Ranges(alphabet, n), c, 0)
  }

  lemma {:induction false} FindShardFinds(ranges: seq<Range>, c: char, i: nat, at: nat)
    requires i <= at < |ranges| && InRange(ranges[at], c)
    requires forall j :: 0 <= j < |ranges| && InRange(ranges[j], c) ==> j == at
    ensures FindShard(ranges, c, i) == at
    decreases |ranges| - i
  {
    if i < at {
      FindShardFinds(ranges, c, i + 1, at);
    }
  }

  /** The owner of a symbol is the one shard whose range holds its first letter: the fallback at the
      end of the search is never taken. */
  lemma {:induction false} ShardOfIffRange(alphabet: string, sym: string, n: nat, i: nat)
    requires Increasing(alphabet) && 1 <= n <= |alphabet| && i < n
    requires FirstLetter(alphabet, sym).Some?
    ensures ShardOf(alphabet, sym, n) == i
        <==> InRange(Ranges(alphabet, n)[i], FirstLetter(alphabet, sym).value)
  {
    var c := FirstLetter(alphabet, sym).value;
    var at := RangesPartition(alphabet, n, c);
    FindShardFinds(Ranges(alphabet, n), c, 0, at);
  }

  /** A symbol that does not start with a letter is owned by the first shard exactly when it has no letter
      at all or its first letter, wherever it stands, lies in the first range. */
  lemma {:induction false} NoLeadingLetterIff(alphabet: string, sym: string, n: nat)
    requires Increasing(alphabet) && 1 <= n <= |alphabet|
    requires sym == [] || Upper(sym[0]) !in alphabet
    ensures var c := FirstLetter(alphabet, sym);
            var first := ShardOf(alphabet, sym, n) == 0;
            first <==> (c.None? || InRange(Ranges(alphabet, n)[0], c.value))
  {
    hide Ranges, FindShard;
    if FirstLetter(alphabet, sym).Some? {
      ShardOfIffRange(alphabet, sym, n, 0);
    }
  }

  /** Such a symbol on another shard than the first. */
  lemma {:induction false} LeadingDigitElsewhere()
    ensures Upper("1ZM"[0]) !in AlphabetAZ && ShardOf(AlphabetAZ, "1ZM", 2) == 1
  {
    AlphabetAZIncreasing();
    TwoShardsAreAMandNZ();
    assert "1ZM"[1..] == "ZM";
    assert FirstLetter(AlphabetAZ, "ZM") == Some('Z');
    ShardOfIffRange(AlphabetAZ, "1ZM", 2, 1);
  }

  /** Every shard owns some symbol, so no shard count leaves a shard idle. */
  lemma {:induction false} EveryShardOwnsSomething(alphabet: string, n: nat, i: nat) returns (sym: string)
    requires Increasing(alphabet) && 1 <= n <= |alphabet| && i < n
    requires forall c :: c in alphabet ==> Upper(c) == c
    ensures |sym| == 1 && sym[0] in alphabet && ShardOf(alphabet, sym, n) == i
  {
    StartEnds(|alphabet|, n);
    StartMonotone(|alphabet|, n, i, n);
    var k := Start(|alphabet|, n, i);
    sym := [alphabet[k]];
    assert FirstLetter(alphabet, sym) == Some(alphabet[k]);
    InRangeIff(alphabet, n, i, k);
    ShardOfIffRange(alphabet, sym, n, i);
  }

  // ------------------------------------------------------------------ names

  const Digits := "0123456789"

  /** Decimal numerals, as the f-string `s{i}` writes them. */
  function Decimal(n: nat): (s: string)
    ensures |s| >= 1
  {
    if n < 10 then [Digits[n]] else Decimal(n / 10) + [Digits[n % 10]]
  }

  /** The last digit of a numeral, and the numeral before it. */
  lemma {:induction false} LastDigit(n: nat)
    ensures var s := Decimal(n);
            s[|s| - 1] == Digits[n % 10] && if n < 10 then |s| == 1 else |s| > 1 && s[..|s| - 1] == Decimal(n / 10)
  {
  }

  lemma {:induction false} DigitsDiffer(i: nat, j: nat)
    requires i < 10 && j < 10 && Digits[i] == Digits[j]
    ensures i == j
  {
  }

  lemma {:induction false} DecimalInjective(m: nat, n: nat)
    requires Decimal(m) == Decimal(n)
    ensures m == n
  {
    hide Decimal;
    LastDigit(m);
    LastDigit(n);
    DigitsDiffer(m % 10, n % 10);
    if m >= 10 {
      DecimalInjective(m / 10, n / 10);
    }
  }

  function ShardId(i: nat): string {
    "s" + Decimal(i)
  }

  datatype Tier = Tickerplant | Wdb | Rdb | Idb | Hdb

  const ShardTiers := [Tickerplant, Wdb, Rdb, Idb, Hdb]

  function Prefix(t: Tier): (p: string)
    ensures |p| >= 2
  {
    match t
    case Tickerplant => "tp"
    case Wdb => "wdb"
    case Rdb => "rdb"
    case Idb => "idb"
    case Hdb => "hdb"
  }

  function Service(t: Tier, i: nat): string {
    Prefix(t) + "-" + ShardId(i)
  }

  lemma {:induction false} ServiceInjective(t: Tier, i: nat, u: Tier, j: nat)
    requires Service(t, i) == Service(u, j)
    ensures t == u && i == j
  {
    hide Prefix, Decimal;
    var a, b := Service(t, i), Service(u, j);
    assert a[0] == Prefix(t)[0] && b[0] == Prefix(u)[0];
    FirstLetterTellsTier(t, u);
    var k := |Prefix(t)| + 2;
    assert a[k..] == Decimal(i) && b[k..] == Decimal(j);
    DecimalInjective(i, j);
  }

  lemma {:induction false} FirstLetterTellsTier(t: Tier, u: Tier)
    requires Prefix(t)[0] == Prefix(u)[0]
    ensures t == u
  {
  }

  lemma {:induction false} GatewayIsNoShardService(t: Tier, i: nat)
    ensures Service(t, i) != "gateway"
  {
    assert Service(t, i)[0] == Prefix(t)[0];
    assert "gateway"[0] == 'g';
  }

  /** One shard's services, in tier order. */
  function ServicesOf(i: nat): (s: seq<string>)
    ensures |s| == 5
  {
    seq(5, k requires 0 <= k < 5 => Service(ShardTiers[k], i))
  }

  function ServicesUpTo(n: nat): (s: seq<string>)
    ensures |s| == 5 * n
  {
    if n == 0 then [] else ServicesUpTo(n - 1) + ServicesOf(n - 1)
  }

  lemma {:induction false} ServiceAt(n: nat, k: nat)
    requires k < 5 * n
    ensures ServicesUpTo(n)[k] == Service(ShardTiers[k % 5], k / 5)
  {
    if k < 5 * (n - 1) {
      ServiceAt(n - 1, k);
    } else {
      assert k / 5 == n - 1 && k % 5 == k - 5 * (n - 1);
    }
  }

  lemma {:induction false} ServicesDistinct(n: nat)
    ensures Distinct(ServicesUpTo(n))
  {
    var s := ServicesUpTo(n);
    forall i, j | 0 <= i < j < |s|
      ensures s[i] != s[j]
    {
      ServiceAt(n, i);
      ServiceAt(n, j);
      if s[i] == s[j] {
        ServiceInjective(ShardTiers[i % 5], i / 5, ShardTiers[j % 5], j / 5);
      }
    }
  }

  lemma {:induction false} NameIsNew(i: nat, k: nat)
    requires k < 5
    ensures Service(ShardTiers[k], i) !in ServicesUpTo(i) + ServicesOf(i)[..k]
  {
    ServicesDistinct(i + 1);
    var s := ServicesUpTo(i + 1);
    assert s[5 * i + k] == Service(ShardTiers[k], i);
    assert ServicesUpTo(i) + ServicesOf(i)[..k] == s[..5 * i + k];
  }

  /** One shard's names, and a name with two digits. */
  lemma {:induction false} ServiceExamples()
    ensures Service(Tickerplant, 0) == "tp-s0" && Service(Wdb, 0) == "wdb-s0" && Service(Rdb, 0) == "rdb-s0"
    ensures Service(Idb, 0) == "idb-s0" && Service(Hdb, 0) == "hdb-s0"
    ensures Service(Rdb, 10) == "rdb-s10"
  {
    assert Decimal(0) == "0" && Decimal(1) == "1" && Decimal(10) == "10";
  }

  /** The list the watchdog heals: every shard's services, then the gateway. */
  function Healed(n: nat): (services: seq<string>)
    ensures |services| == 5 * n + 1
  {
    ServicesUpTo(n) + ["gateway"]
  }

  /** Every service is healed exactly once a pass. */
  lemma {:induction false} HealedDistinct(n: nat)
    ensures Distinct(Healed(n))
  {
    ServicesDistinct(n);
    forall k | 0 <= k < 5 * n
      ensures ServicesUpTo(n)[k] != "gateway"
    {
      ServiceAt(n, k);
      GatewayIsNoShardService(ShardTiers[k % 5], k / 5);
    }
  }

  /** The program collects the shard services as dictionary keys, so a repeated
      name would be dropped; none is, and each tickerplant stands before its shard's dependents. */
  method HealedServices(n: int) returns (r: Outcome<seq<string>>)
    ensures r.Ok? <==> 1 <= n <= |AlphabetAZ|
    ensures r.Ok? ==> r.value == Healed(n)
  {
    var ranges := LetterRanges(AlphabetAZ, n);
    if ranges.ValueError? {
      return ValueError;
    }
    var services: seq<string> := [];
    for i := 0 to n
      invariant services == ServicesUpTo(i)
    {
      for k := 0 to |ShardTiers|
        invariant services == ServicesUpTo(i) + ServicesOf(i)[..k]
      {
        var name := Service(ShardTiers[k], i);
        NameIsNew(i, k);
        if name !in services {
          services := services + [name];
        }
      }
    }
    return Ok(services + ["gateway"]);
  }

  /** Every service is healed exactly once a pass, and a tickerplant before its dependents. */
  lemma {:induction false} HealedOrder(n: nat, i: nat, t: Tier)
    requires i < n && !t.Tickerplant?
    ensures Distinct(Healed(n))
    ensures exists a, b :: 0 <= a < b < 5 * n
                        && Healed(n)[a] == Service(Tickerplant, i) && Healed(n)[b] == Service(t, i)
  {
    HealedDistinct(n);
    var off := match t case Tickerplant => 0 case Wdb => 1 case Rdb => 2 case Idb => 3 case Hdb => 4;
    var a, b := 5 * i, 5 * i + off;
    ServiceAt(n, a);
    ServiceAt(n, b);
    assert a / 5 == i && b / 5 == i && a % 5 == 0 && b % 5 == off;
    assert Healed(n)[a] == Service(Tickerplant, i) && Healed(n)[b] == Service(t, i);
  }

  // ------------------------------------------------------------------ the tickerplant behind a service

  /** watchdog/runbooks.py: wdb-, rdb- and idb- processes need their shard's tickerplant. */
  function TickerplantDependency(service: string): Option<string> {
    if "wdb-" <= service || "rdb-" <= service || "idb-" <= service then Some("tp-" + service[4..])
    else None
  }

  lemma {:induction false} CutPrefix(p: string, rest: string, s: string)
    requires s == p + rest
    ensures p <= s && s[|p|..] == rest
  {
  }

  /** Any name after one of the three prefixes, and no other, depends on the tickerplant of that name. */
  lemma {:induction false} DependencyByPrefix(service: string, p: string, rest: string)
    ensures p in {"wdb-", "rdb-", "idb-"} ==> TickerplantDependency(p + rest) == Some("tp-" + rest)
    ensures TickerplantDependency(service).Some? ==>
              |service| >= 4 && service[..4] in {"wdb-", "rdb-", "idb-"}
              && TickerplantDependency(service).value == "tp-" + service[4..]
  {
    if p in {"wdb-", "rdb-", "idb-"} {
      CutPrefix(p, rest, p + rest);
    }
    assert "wdb-" <= service ==> service[..4] == "wdb-";
    assert "rdb-" <= service ==> service[..4] == "rdb-";
    assert "idb-" <= service ==> service[..4] == "idb-";
  }

  /** The dependency of a shard's wdb, rdb or idb is that shard's tickerplant; tickerplants, the
      historical tier and the gateway depend on none. */
  lemma {:induction false} DependencyIsOwnTickerplant(t: Tier, i: nat)
    ensures TickerplantDependency(Service(t, i))
         == if t.Wdb? || t.Rdb? || t.Idb? then Some(Service(Tickerplant, i)) else None
    ensures TickerplantDependency("gateway") == None
  {
    var s := Service(t, i);
    assert s[0] == Prefix(t)[0];
    assert "wdb-"[0] == 'w' && "rdb-"[0] == 'r' && "idb-"[0] == 'i' && "gateway"[0] == 'g';
    assert Service(Tickerplant, i) == "tp-" + ShardId(i);
    match t
    case Wdb => CutPrefix("wdb-", ShardId(i), s);
    case Rdb => CutPrefix("rdb-", ShardId(i), s);
    case Idb => CutPrefix("idb-", ShardId(i), s);
    case _ =>
  }
}
