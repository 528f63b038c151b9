/** A feed's symbol universe (data-plane/feeds/feed_common.py, `build_universe`): an explicit group as it
    is, or the built-in list cut or padded with synthetic tickers whose first letter cycles through A-Z. */
module Universe {
  import opened Common
  import opened Text
  import opened Topology

  // ------------------------------------------------------------------ synthetic tickers

  function Zeros(n: nat): (s: string)
    ensures |s| == n && forall k :: 0 <= k < n ==> s[k] == '0'
  {
    seq(n, _ => '0')
  }

  /** At least five digits. */
  function FiveDigits(i: nat): string {
    var d := Decimal(i);
    Zeros(if |d| < 5 then 5 - |d| else 0) + d
  }

  /** The `i`-th synthetic ticker, counted from one. */
  function Synthetic(i: nat): (s: string)
    requires i >= 1
  {
    [AlphabetAZ[(i - 1) % 26]] + "SYN" + FiveDigits(i)
  }

  /** The number a digit string stands for. */
  function ValueOf(s: string): int {
    if s == [] then 0 else ValueOf(s[..|s| - 1]) * 10 + (s[|s| - 1] as int - '0' as int)
  }

  lemma {:induction false} ValueOfZeros(n: nat, s: string)
    ensures ValueOf(Zeros(n) + s) == ValueOf(s)
    decreases |s|, n
  {
    var z := Zeros(n) + s;
    if s != [] {
      assert z[..|z| - 1] == Zeros(n) + s[..|s| - 1];
      ValueOfZeros(n, s[..|s| - 1]);
    } else if n > 0 {
      assert z[..|z| - 1] == Zeros(n - 1) + [];
      ValueOfZeros(n - 1, []);
    } else {
      assert z == s;
    }
  }

  lemma {:induction false} ValueOfDecimal(i: nat)
    ensures ValueOf(Decimal(i)) == i
  {
    var d := Decimal(i);
    assert d[|d| - 1] == Digits[i % 10];
    if i < 10 {
      assert d[..|d| - 1] == [];
    } else {
      assert d[..|d| - 1] == Decimal(i / 10);
      ValueOfDecimal(i / 10);
    }
  }

  /** No ticker is generated twice. */
  lemma {:induction false} SyntheticInjective(i: nat, j: nat)
    requires i >= 1 && j >= 1 && Synthetic(i) == Synthetic(j)
    ensures i == j
  {
    assert Synthetic(i)[4..] == FiveDigits(i) && Synthetic(j)[4..] == FiveDigits(j);
    NumberOfDigits(i);
    NumberOfDigits(j);
  }

  /** The first ticker, and the first of the second round of the alphabet. */
  lemma {:induction false} SyntheticExamples()
    ensures Synthetic(1) == "ASYN00001" && Synthetic(27) == "ASYN00027"
  {
    FiveDigitExamples();
    hide FiveDigits;
    assert AlphabetAZ[0] == 'A' && 26 % 26 == 0;
    assert ['A'] + "SYN" + "00001" == "ASYN00001" && ['A'] + "SYN" + "00027" == "ASYN00027";
  }

  lemma {:induction false} FiveDigitExamples()
    ensures FiveDigits(1) == "00001" && FiveDigits(27) == "00027"
  {
    assert Decimal(1) == "1" && Decimal(2) == "2" && Decimal(27) == "27";
    assert Zeros(4) == "0000" && Zeros(3) == "000";
  }

  lemma {:induction false} NumberOfDigits(i: nat)
    ensures ValueOf(FiveDigits(i)) == i
  {
    var d := Decimal(i);
    ValueOfZeros(if |d| < 5 then 5 - |d| else 0, d);
    ValueOfDecimal(i);
  }

  // ------------------------------------------------------------------ an explicit group

  /** Python's `text.split(",")`: one part more than there are commas. */
  function Split(text: string): (parts: seq<string>)
    ensures |parts| >= 1
  {
    if text == [] then [[]]
    else
      var rest := Split(text[1..]);
      if text[0] == ',' then [[]] + rest else [[text[0]] + rest[0]] + rest[1..]
  }

  /** Every part trimmed and in upper case; parts of white space alone are dropped. */
  function Cleaned(parts: seq<string>): seq<string> {
    if parts == [] then []
    else (if Strip(parts[0]) != [] then [UpperAll(Strip(parts[0]))] else []) + Cleaned(parts[1..])
  }

  function Parse(text: string): seq<string> {
    Cleaned(Split(text))
  }

  function NewlinesToCommas(text: string): (t: string)
    ensures |t| == |text|
  {
    seq(|text|, k requires 0 <= k < |text| => if text[k] == '\n' then ',' else text[k])
  }

  /** Where the symbols come from: a file that exists, an argument, or neither. */
  datatype Source = File(content: string) | Argument(text: string) | Neither

  function Group(source: Source): Option<seq<string>> {
    match source
    case File(content) => Some(Parse(NewlinesToCommas(content)))
    case Argument(text) => if text == [] then None else Some(Parse(text))
    case Neither => None
  }

  function Join(parts: seq<string>, sep: char): string {
    if parts == [] then []
    else if |parts| == 1 then parts[0]
    else parts[0] + [sep] + Join(parts[1..], sep)
  }

  lemma {:induction false} SplitFirst(part: string, text: string)
    requires ',' !in part
    ensures Split(part) == [part] && Split(part + [','] + text) == [part] + Split(text)
  {
    var whole := part + [','] + text;
    if part == [] {
      assert whole[1..] == text;
    } else {
      assert whole[1..] == part[1..] + [','] + text;
      SplitFirst(part[1..], text);
      assert [part[0]] + part[1..] == part;
      var rest := Split(whole[1..]);
      assert rest[1..] == Split(text) && rest[0] == part[1..];
    }
  }

  lemma {:induction false} SplitJoin(parts: seq<string>)
    requires parts != [] && forall s :: s in parts ==> ',' !in s
    ensures Split(Join(parts, ',')) == parts
  {
    assert parts[0] in parts;
    if |parts| == 1 {
      SplitFirst(parts[0], []);
      assert parts == [parts[0]];
    } else {
      SplitFirst(parts[0], Join(parts[1..], ','));
      SplitJoin(parts[1..]);
      assert parts == [parts[0]] + parts[1..];
    }
  }

  /** A symbol as the list holds it: not empty, no white space at its ends, in upper case, in one part. */
  ghost predicate IsClean(s: string) {
    && s != [] && !IsSpace(s[0]) && !IsSpace(s[|s| - 1])
    && forall c :: c in s ==> c != ',' && c != '\n' && !('a' <= c <= 'z')
  }

  /** A way to write a symbol: capitals or small letters, white space other than line ends around it. */
  ghost predicate Writes(part: string, left: string, core: string, right: string, symbol: string) {
    && part == left + core + right && |core| == |symbol|
    && (forall c :: c in left + right ==> IsSpace(c) && c != '\n')
    && forall k :: 0 <= k < |core| ==>
         core[k] == symbol[k] || ('a' <= core[k] <= 'z' && symbol[k] as int == core[k] as int - 32)
  }

  ghost predicate Spells(part: string, symbol: string) {
    exists left, core, right :: Writes(part, left, core, right, symbol)
  }

  lemma {:induction false} SpelledIsCleaned(part: string, symbol: string)
    requires IsClean(symbol) && Spells(part, symbol)
    ensures Strip(part) != [] && UpperAll(Strip(part)) == symbol && ',' !in part && '\n' !in part
  {
    hide Strip;
    var left, core, right :| Writes(part, left, core, right, symbol);
    forall k | 0 <= k < |core|
      ensures Upper(core[k]) == symbol[k] && core[k] != ',' && core[k] != '\n'
    {
      assert symbol[k] in symbol;
      assert core[k] != symbol[k] ==> 'A' <= symbol[k] <= 'Z';
    }
    EndsAreLetters(core, symbol);
    StripPads(left, core, right);
    assert UpperAll(core) == symbol;
    forall c | c in part
      ensures c != ',' && c != '\n'
    {
      assert c in left + right || c in core;
      WhiteSpace();
    }
  }

  lemma {:induction false} EndsAreLetters(core: string, symbol: string)
    requires IsClean(symbol) && |core| == |symbol|
    requires forall k :: 0 <= k < |core| ==> core[k] == symbol[k] || 'a' <= core[k] <= 'z'
    ensures core != [] && !IsSpace(core[0]) && !IsSpace(core[|core| - 1])
  {
    WhiteSpace();
  }

  ghost predicate AllSpelled(parts: seq<string>, symbols: seq<string>) {
    && |parts| == |symbols|
    && forall k :: 0 <= k < |parts| ==> IsClean(symbols[k]) && Spells(parts[k], symbols[k])
  }

  lemma {:induction false} CleanedSpelled(parts: seq<string>, symbols: seq<string>)
    requires AllSpelled(parts, symbols)
    ensures Cleaned(parts) == symbols
    ensures forall p :: p in parts ==> ',' !in p && '\n' !in p
  {
    if parts != [] {
      hide IsClean, Spells, Strip, UpperAll;
      SpelledIsCleaned(parts[0], symbols[0]);
      CleanedSpelled(parts[1..], symbols[1..]);
      assert symbols == [symbols[0]] + symbols[1..] && parts == [parts[0]] + parts[1..];
    }
  }

  /** A written group is read symbol by symbol, however each is spelled: from an argument or a file with
      commas between them, and from a file with one on each line. */
  lemma {:induction false} ParseJoin(parts: seq<string>, symbols: seq<string>)
    requires parts != [] && AllSpelled(parts, symbols)
    ensures Group(Argument(Join(parts, ','))) == Group(File(Join(parts, ','))) == Some(symbols)
    ensures Group(File(Join(parts, '\n'))) == Some(symbols)
  {
    hide Cleaned, Split, IsClean, Spells;
    CleanedSpelled(parts, symbols);
    SplitJoin(parts);
    LinesToCommas(parts, ',');
    LinesToCommas(parts, '\n');
    NotEmpty(parts, symbols);
  }

  lemma {:induction false} NotEmpty(parts: seq<string>, symbols: seq<string>)
    requires parts != [] && AllSpelled(parts, symbols)
    ensures Join(parts, ',') != []
  {
    hide Strip;
    assert IsClean(symbols[0]) && Spells(parts[0], symbols[0]);
    var left, core, right :| Writes(parts[0], left, core, right, symbols[0]);
  }

  lemma {:induction false} LinesToCommas(parts: seq<string>, sep: char)
    requires sep == ',' || sep == '\n'
    requires forall p :: p in parts ==> '\n' !in p
    ensures NewlinesToCommas(Join(parts, sep)) == Join(parts, ',')
  {
    if parts != [] {
      assert parts[0] in parts && NewlinesToCommas(parts[0]) == parts[0];
      if |parts| > 1 {
        LinesToCommas(parts[1..], sep);
        var (rest, commas) := (Join(parts[1..], sep), Join(parts[1..], ','));
        assert NewlinesToCommas(parts[0] + [sep] + rest) == parts[0] + [','] + commas by {
          assert forall k :: 0 <= k < |rest| ==> NewlinesToCommas(rest)[k] == commas[k];
        }
      }
    }
  }

  /** Parts of white space alone are not read. */
  lemma {:induction false} BlanksAreDropped(a: seq<string>, blank: string, b: seq<string>)
    requires forall c :: c in blank ==> IsSpace(c)
    ensures Cleaned(a + [blank] + b) == Cleaned(a + b)
  {
    hide Strip;
    if a == [] {
      assert [] + [blank] + b == [blank] + b && ([blank] + b)[1..] == b && [] + b == b;
      assert [] + [] + blank == blank;
      StripPads([], [], blank);
    } else {
      assert (a + [blank] + b)[0] == a[0] == (a + b)[0];
      assert (a + [blank] + b)[1..] == a[1..] + [blank] + b && (a + b)[1..] == a[1..] + b;
      BlanksAreDropped(a[1..], blank, b);
    }
  }

  // ------------------------------------------------------------------ the universe

  function Padding(k: nat): (p: seq<string>)
    ensures |p| == k
  {
    seq(k, i requires 0 <= i < k => Synthetic(i + 1))
  }

  /** First occurrences, in order. */
  function FirstOnly(s: seq<string>): (r: seq<string>)
    ensures forall x :: x in r <==> x in s
    ensures |r| <= |s|
  {
    if s == [] then []
    else
      var init, last := s[..|s| - 1], s[|s| - 1];
      assert s == init + [last];
      FirstOnly(init) + if last in init then [] else [last]
  }

  /** What the universe is before repeated symbols are dropped. */
  function Listed(count: int, group: Option<seq<string>>, builtin: seq<string>): seq<string> {
    match group
    case Some(symbols) => symbols
    case None =>
      if count <= 0 then builtin
      else if |builtin| >= count then builtin[..count]
      else builtin + Padding(count - |builtin|)
  }

  /** The padding loop, one ticker at a time. */
  method PadTo(count: nat, builtin: seq<string>) returns (syms: seq<string>)
    requires |builtin| < count
    ensures syms == builtin + Padding(count - |builtin|)
  {
    hide FiveDigits;
    syms := builtin;
    var i := 1;
    while |syms| < count
      invariant i == |syms| - |builtin| + 1 && |builtin| <= |syms| <= count
      invariant syms == builtin + Padding(i - 1)
    {
      PaddingGrows(i - 1);
      syms := syms + [[AlphabetAZ[(i - 1) % |AlphabetAZ|]] + "SYN" + FiveDigits(i)];
      i := i + 1;
    }
  }

  lemma {:induction false} PaddingGrows(k: nat)
    ensures Padding(k + 1) == Padding(k) + [Synthetic(k + 1)]
  {
  }

  /** Dropping repeats with a growing set of the symbols seen. */
  method DropRepeats(syms: seq<string>) returns (universe: seq<string>)
    ensures universe == FirstOnly(syms)
  {
    universe := [];
    var seen: set<string> := {};
    for k := 0 to |syms|
      invariant universe == FirstOnly(syms[..k])
      invariant forall x :: x in seen <==> x in syms[..k]
    {
      assert syms[..k + 1] == syms[..k] + [syms[k]];
      if syms[k] !in seen {
        seen := seen + {syms[k]};
        universe := universe + [syms[k]];
      }
    }
    assert syms[..|syms|] == syms;
  }

  /** An explicit group is never padded; the built-in list is cut or padded to `count`. */
  method BuildUniverse(count: int, source: Source, builtin: seq<string>) returns (universe: seq<string>)
    ensures universe == FirstOnly(Listed(count, Group(source), builtin))
    ensures Distinct(universe)
    ensures source.File? ==> Keeps(universe, Parse(NewlinesToCommas(source.content)))
    ensures source.Argument? && source.text != "" ==> Keeps(universe, Parse(source.text))
    ensures NoGroup(source) && count <= 0 ==> Keeps(universe, builtin)
    ensures NoGroup(source) && 0 < count <= |builtin| ==> Keeps(universe, builtin[..count])
    ensures NoGroup(source) && count > |builtin| ==> Keeps(universe, builtin + Padding(count - |builtin|))
  {
    hide Padding, FirstOnly, Parse, NewlinesToCommas, Keeps, Distinct;
    var group := Group(source);
    var syms := if group.Some? then group.value else builtin;
    if group.None? && count > 0 {
      if |syms| >= count {
        syms := syms[..count];
      } else {
        syms := PadTo(count, builtin);
      }
    }
    universe := DropRepeats(syms);
    FirstOnlyDistinct(syms);
    FirstOnlyKeeps(syms);
  }

  ghost predicate NoGroup(source: Source) {
    source == Neither || source == Argument("")
  }

  /** The same symbols; the very list, when it repeats none. */
  ghost predicate Keeps(universe: seq<string>, listed: seq<string>) {
    && (forall x :: x in universe <==> x in listed)
    && (Distinct(listed) ==> universe == listed)
  }

  lemma {:induction false} FirstOnlyKeeps(s: seq<string>)
    ensures Keeps(FirstOnly(s), s)
  {
    if Distinct(s) && s != [] {
      var init, last := s[..|s| - 1], s[|s| - 1];
      assert forall k :: 0 <= k < |init| ==> init[k] == s[k];
      FirstOnlyKeeps(init);
      assert s == init + [last];
    }
  }

  lemma {:induction false} FirstOnlyDistinct(s: seq<string>)
    ensures Distinct(FirstOnly(s))
  {
    if s != [] {
      FirstOnlyDistinct(s[..|s| - 1]);
    }
  }

  lemma {:induction false} FirstOnlyFullIff(s: seq<string>)
    ensures |FirstOnly(s)| == |s| <==> Distinct(s)
  {
    if s != [] {
      var init, last := s[..|s| - 1], s[|s| - 1];
      FirstOnlyFullIff(init);
      assert forall k :: 0 <= k < |init| ==> init[k] == s[k];
      if last in init {
        var k :| 0 <= k < |init| && init[k] == last;
        assert s[k] == s[|s| - 1];
      }
    }
  }

  lemma {:induction false} PaddingDistinct(k: nat)
    ensures Distinct(Padding(k))
  {
    hide Synthetic;
    forall i, j | 0 <= i < j < k
      ensures Padding(k)[i] != Padding(k)[j]
    {
      if Padding(k)[i] == Padding(k)[j] {
        SyntheticInjective(i + 1, j + 1);
      }
    }
  }

  lemma {:induction false} DistinctConcat(a: seq<string>, b: seq<string>)
    requires Distinct(b)
    ensures Distinct(a + b) <==> (Distinct(a) && forall x :: x in a ==> x !in b)
  {
    var s := a + b;
    assert forall i :: 0 <= i < |a| ==> s[i] == a[i];
    assert forall j :: 0 <= j < |b| ==> s[|a| + j] == b[j];
    if Distinct(s) {
      forall x | x in a
        ensures x !in b
      {
        var i :| 0 <= i < |a| && a[i] == x;
        forall j | 0 <= j < |b|
          ensures b[j] != x
        {
          assert s[i] != s[|a| + j];
        }
      }
    } else {
      var i, j :| 0 <= i < j < |s| && s[i] == s[j];
      if j < |a| {
        assert a[i] == a[j];
      } else if i < |a| {
        assert a[i] in a && b[j - |a|] in b;
      }
    }
  }

  /** The padded universe has the asked-for size exactly when the built-in list repeats no symbol and
      holds none of the synthetic tickers it is padded with. */
  lemma {:induction false} FullSizeIff(count: nat, builtin: seq<string>)
    requires |builtin| < count
    ensures var padding := Padding(count - |builtin|);
            var full := |FirstOnly(Listed(count, None, builtin))| == count;
            full <==> (Distinct(builtin) && forall x :: x in builtin ==> x !in padding)
  {
    hide Padding, FirstOnly, Distinct;
    FirstOnlyFullIff(builtin + Padding(count - |builtin|));
    PaddingDistinct(count - |builtin|);
    DistinctConcat(builtin, Padding(count - |builtin|));
  }

  // ------------------------------------------------------------------ even spread

  lemma {:induction false} LetterIsFixed(k: nat)
    requires k < 26
    ensures Upper(AlphabetAZ[k]) == AlphabetAZ[k] && AlphabetAZ[k] in AlphabetAZ
  {
  }

  /** A synthetic ticker lies on the shard whose span holds its letter. */
  lemma {:induction false} SyntheticShardIff(n: nat, shard: nat, i: nat)
    requires 1 <= n <= 26 && shard < n && i >= 1
    ensures ShardOf(AlphabetAZ, Synthetic(i), n) == shard
       <==> Start(26, n, shard) <= (i - 1) % 26 < Start(26, n, shard + 1)
  {
    hide Start, FindShard;
    var k := (i - 1) % 26;
    AlphabetAZIncreasing();
    LetterIsFixed(k);
    assert Synthetic(i)[0] == AlphabetAZ[k];
    assert FirstLetter(AlphabetAZ, Synthetic(i)) == Some(AlphabetAZ[k]);
    ShardOfIffRange(AlphabetAZ, Synthetic(i), n, shard);
    InRangeIff(AlphabetAZ, n, shard, k);
  }

  /** How many of the `len` tickers from the `from`-th on lie on a shard. */
  function OnShard(n: nat, shard: nat, from: nat, len: nat): nat
    requires 1 <= n <= 26 && shard < n && from >= 1
  {
    if len == 0 then 0
    else OnShard(n, shard, from, len - 1) + if ShardOf(AlphabetAZ, Synthetic(from + len - 1), n) == shard then 1 else 0
  }

  /** The first round, letter by letter. */
  lemma {:induction false} FirstRound(n: nat, shard: nat, len: nat)
    requires 1 <= n <= 26 && shard < n && len <= 26
    ensures var lo, hi := Start(26, n, shard), Start(26, n, shard + 1);
            OnShard(n, shard, 1, len) == if len <= lo then 0 else if len <= hi then len - lo else hi - lo
  {
    hide ShardOf, Synthetic;
    StartMonotone(26, n, shard, shard + 1);
    if len > 0 {
      FirstRound(n, shard, len - 1);
      SyntheticShardIff(n, shard, len);
      assert (len - 1) % 26 == len - 1;
    }
  }

  /** Dropping the first ticker of a stretch. */
  lemma {:induction false} OnShardFront(n: nat, shard: nat, from: nat, len: nat)
    requires 1 <= n <= 26 && shard < n && from >= 1 && len >= 1
    ensures OnShard(n, shard, from, len)
         == (if ShardOf(AlphabetAZ, Synthetic(from), n) == shard then 1 else 0) + OnShard(n, shard, from + 1, len - 1)
  {
    hide ShardOf, Synthetic;
    if len > 1 {
      OnShardFront(n, shard, from, len - 1);
      assert from + 1 + (len - 1) - 1 == from + len - 1;
    }
  }

  /** The promise behind the cycling letter: of any 26 tickers in a row every shard gets exactly as many
      as its range has letters. */
  lemma {:induction false} SpreadIsEven(n: nat, shard: nat, from: nat)
    requires 1 <= n <= 26 && shard < n && from >= 1
    ensures OnShard(n, shard, from, 26) == Size(26, n, shard)
  {
    hide ShardOf, Synthetic, OnShard;
    if from == 1 {
      FirstRound(n, shard, 26);
      StartEnds(26, n);
      StartMonotone(26, n, shard + 1, n);
    } else {
      hide Start, Size;
      SpreadIsEven(n, shard, from - 1);
      OnShardFront(n, shard, from - 1, 26);
      OnShardBack(n, shard, from, 26);
      SameShard(n, shard, from - 1);
    }
  }

  lemma {:induction false} SameShard(n: nat, shard: nat, i: nat)
    requires 1 <= n <= 26 && shard < n && i >= 1
    ensures ShardOf(AlphabetAZ, Synthetic(i), n) == shard <==> ShardOf(AlphabetAZ, Synthetic(i + 26), n) == shard
  {
    hide ShardOf, Synthetic, Start;
    SyntheticShardIff(n, shard, i);
    SyntheticShardIff(n, shard, i + 26);
    SameLetter(i - 1);
  }

  lemma {:induction false} SameLetter(k: nat)
    ensures (k + 26) % 26 == k % 26
  {
  }

  lemma {:induction false} OnShardBack(n: nat, shard: nat, from: nat, len: nat)
    requires 1 <= n <= 26 && shard < n && from >= 1 && len >= 1
    ensures OnShard(n, shard, from, len)
         == OnShard(n, shard, from, len - 1) + if ShardOf(AlphabetAZ, Synthetic(from + len - 1), n) == shard then 1 else 0
  {
  }
}
