/** Base 32 as defined in section 6 of RFC 4648, for whole groups of five bytes, with the padding rules
    of the decoder the licence code calls. */
module Base32 {
  import opened Common

  type Byte = b: int | 0 <= b < 256

  const Alphabet := "ABCDEFGHIJKLMNOPQRSTUVWXYZ234567"

  // ------------------------------------------------------------------ numerals

  function Pow(base: nat, n: nat): nat {
    if n == 0 then 1 else base * Pow(base, n - 1)
  }

  ghost predicate Digits(d: seq<int>, base: nat) {
    forall k :: 0 <= k < |d| ==> 0 <= d[k] < base
  }

  lemma {:induction false} DivideWithRest(v: nat, base: nat)
    requires base > 0
    ensures v / base >= 0 && 0 <= v % base < base && v == v / base * base + v % base
  {
  }

  /** The number a big-endian numeral stands for. */
  function ToNumber(d: seq<int>, base: nat): int {
    if d == [] then 0 else ToNumber(d[..|d| - 1], base) * base + d[|d| - 1]
  }

  /** The big-endian numeral of `n` digits. */
  function ToDigits(v: nat, base: nat, n: nat): (d: seq<int>)
    requires base > 0
    ensures |d| == n
    decreases n
  {
    if n == 0 then []
    else
      DivideWithRest(v, base);
      ToDigits(v / base, base, n - 1) + [v % base]
  }

  lemma {:induction false} ToDigitsAreDigits(v: nat, base: nat, n: nat)
    requires base > 0
    ensures Digits(ToDigits(v, base, n), base)
    decreases n
  {
    if n > 0 {
      DivideWithRest(v, base);
      ToDigitsAreDigits(v / base, base, n - 1);
    }
  }

  lemma {:induction false} NumberFits(d: seq<int>, base: nat)
    requires Digits(d, base) && base > 0
    ensures 0 <= ToNumber(d, base) < Pow(base, |d|)
  {
    if d != [] {
      var front, last := d[..|d| - 1], d[|d| - 1];
      NumberFits(front, base);
      Scales(ToNumber(front, base), Pow(base, |d| - 1), base, last);
    }
  }

  lemma {:induction false} Scales(v: int, bound: int, base: int, last: int)
    requires 0 <= v < bound && 0 <= last < base
    ensures 0 <= v * base + last < base * bound
  {
    assert (v + 1) * base <= bound * base;
  }

  lemma {:induction false} Difference(a: int, b: int, base: int)
    ensures (a - b) * base == a * base - b * base
  {
  }

  /** Quotient and rest are determined. */
  lemma {:induction false} DivMod(v: nat, base: nat, last: int)
    requires 0 <= last < base
    ensures v * base + last >= 0
    ensures (v * base + last) / base == v && (v * base + last) % base == last
  {
    var w := v * base + last;
    DivideWithRest(w, base);
    var q, r := w / base, w % base;
    Difference(v, q, base);
    Difference(q, v, base);
    if v > q {
      AtLeast(v - q, base);
    } else if v < q {
      AtLeast(q - v, base);
    }
  }

  lemma {:induction false} DigitsOfNumber(d: seq<int>, base: nat)
    requires Digits(d, base) && base > 0
    ensures ToNumber(d, base) >= 0
    ensures ToDigits(ToNumber(d, base), base, |d|) == d
  {
    NumberFits(d, base);
    if d != [] {
      var front, last := d[..|d| - 1], d[|d| - 1];
      NumberFits(front, base);
      DigitsOfNumber(front, base);
      DivMod(ToNumber(front, base), base, last);
      assert d == front + [last];
    }
  }

  lemma {:induction false} NumberOfSnoc(d: seq<int>, last: int, base: nat)
    ensures ToNumber(d + [last], base) == ToNumber(d, base) * base + last
  {
    assert (d + [last])[..|d|] == d;
  }

  lemma {:induction false} NumberOfDigits(v: nat, base: nat, n: nat)
    requires base > 0 && v < Pow(base, n)
    ensures ToNumber(ToDigits(v, base, n), base) == v
    decreases n
  {
    if n > 0 {
      var q, r := v / base, v % base;
      DivideWithRest(v, base);
      QuotientFits(v, base, Pow(base, n - 1));
      NumberOfDigits(q, base, n - 1);
      NumberOfSnoc(ToDigits(q, base, n - 1), r, base);
    }
  }

  lemma {:induction false} QuotientFits(v: nat, base: nat, bound: nat)
    requires base > 0 && v < base * bound
    ensures v / base < bound
  {
    DivideWithRest(v, base);
    Difference(v / base, bound, base);
    if v / base > bound {
      AtLeast(v / base - bound, base);
    }
  }

  /** Five bytes and eight quintets count the same numbers. */
  lemma {:induction false} SameRange()
    ensures Pow(256, 5) == Pow(32, 8) == 0x100_0000_0000
  {
    assert Pow(256, 2) == 0x1_0000 && Pow(32, 4) == 0x10_0000 by {
      assert Pow(256, 1) == 256 && Pow(32, 1) == 32 && Pow(32, 2) == 1024 && Pow(32, 3) == 32768;
    }
    assert Pow(256, 3) == 0x100_0000 && Pow(32, 5) == 0x200_0000;
    assert Pow(256, 4) == 0x1_0000_0000 && Pow(32, 6) == 0x4000_0000;
    assert Pow(32, 7) == 0x8_0000_0000;
  }

  // ------------------------------------------------------------------ one group

  function EncodeGroup(b: seq<Byte>): (q: seq<int>)
    requires |b| == 5
    ensures |q| == 8 && Digits(q, 32)
  {
    NumberFits(b, 256);
    ToDigitsAreDigits(ToNumber(b, 256), 32, 8);
    ToDigits(ToNumber(b, 256), 32, 8)
  }

  function DecodeGroup(q: seq<int>): (b: seq<Byte>)
    requires |q| == 8 && Digits(q, 32)
    ensures |b| == 5
  {
    NumberFits(q, 32);
    ToDigitsAreDigits(ToNumber(q, 32), 256, 5);
    ToDigits(ToNumber(q, 32), 256, 5)
  }

  lemma {:induction false} GroupRoundTrip(b: seq<Byte>)
    requires |b| == 5
    ensures DecodeGroup(EncodeGroup(b)) == b
  {
    hide ToNumber, ToDigits, Pow;
    NumberFits(b, 256);
    SameRange();
    NumberOfDigits(ToNumber(b, 256), 32, 8);
    DigitsOfNumber(b, 256);
  }

  lemma {:induction false} GroupRoundTripBack(q: seq<int>)
    requires |q| == 8 && Digits(q, 32)
    ensures EncodeGroup(DecodeGroup(q)) == q
  {
    hide ToNumber, ToDigits, Pow;
    NumberFits(q, 32);
    SameRange();
    NumberOfDigits(ToNumber(q, 32), 256, 5);
    DigitsOfNumber(q, 32);
  }

  // ------------------------------------------------------------------ characters

  function CharOf(d: int): char
    requires 0 <= d < 32
  {
    Alphabet[d]
  }

  function ValueOf(c: char): (v: Option<int>)
    ensures v.Some? ==> 0 <= v.value < 32 && CharOf(v.value) == c
  {
    if 'A' <= c <= 'Z' then Some(c as int - 'A' as int)
    else if '2' <= c <= '7' then Some(c as int - '2' as int + 26)
    else None
  }

  lemma {:induction false} ValueOfChar(d: int)
    requires 0 <= d < 32
    ensures ValueOf(CharOf(d)) == Some(d)
  {
    if d < 26 {
      assert CharOf(d) == 'A' + d as char;
    } else {
      assert CharOf(d) == '2' + (d - 26) as char;
    }
  }

  function Chars(q: seq<int>): (s: string)
    requires Digits(q, 32)
    ensures |s| == |q|
  {
    seq(|q|, k requires 0 <= k < |q| => CharOf(q[k]))
  }

  predicate AllInAlphabet(s: string) {
    forall k :: 0 <= k < |s| ==> ValueOf(s[k]).Some?
  }

  function Values(s: string): (q: seq<int>)
    requires AllInAlphabet(s)
    ensures |q| == |s| && Digits(q, 32)
  {
    seq(|s|, k requires 0 <= k < |s| => ValueOf(s[k]).value)
  }

  lemma {:induction false} CharsRoundTrip(q: seq<int>)
    requires Digits(q, 32)
    ensures AllInAlphabet(Chars(q)) && Values(Chars(q)) == q
  {
    forall k | 0 <= k < |q|
      ensures ValueOf(Chars(q)[k]) == Some(q[k])
    {
      ValueOfChar(q[k]);
    }
  }

  lemma {:induction false} ValuesRoundTrip(s: string)
    requires AllInAlphabet(s)
    ensures Chars(Values(s)) == s
  {
  }

  // ------------------------------------------------------------------ whole texts

  function Encode(b: seq<Byte>): (s: string)
    requires |b| % 5 == 0
    ensures |s| == |b| / 5 * 8
  {
    if b == [] then [] else Chars(EncodeGroup(b[..5])) + Encode(b[5..])
  }

  lemma {:induction false} EncodeOne(b: seq<Byte>)
    requires |b| % 5 == 0 && |b| >= 5
    ensures Encode(b) == Chars(EncodeGroup(b[..5])) + Encode(b[5..])
  {
  }

  /** Five digits in base 256, most significant first. */
  lemma {:induction false} FiveBytes(b: seq<int>)
    requires |b| == 5
    ensures ToNumber(b, 256) == b[0] * 4294967296 + b[1] * 16777216 + b[2] * 65536 + b[3] * 256 + b[4]
  {
    assert b[..4] == [b[0], b[1], b[2], b[3]];
    assert b[..4][..3] == [b[0], b[1], b[2]] && [b[0], b[1], b[2]][..2] == [b[0], b[1]];
    assert [b[0], b[1]][..1] == [b[0]] && [b[0]][..0] == [];
    assert ToNumber([b[0]], 256) == b[0] && ToNumber([b[0], b[1]], 256) == b[0] * 256 + b[1];
    assert ToNumber([b[0], b[1], b[2]], 256) == (b[0] * 256 + b[1]) * 256 + b[2];
    assert ToNumber(b[..4], 256) == ((b[0] * 256 + b[1]) * 256 + b[2]) * 256 + b[3];
  }

  lemma {:induction false} FourQuintets(q: seq<int>)
    requires |q| == 4
    ensures ToNumber(q, 32) == q[0] * 32768 + q[1] * 1024 + q[2] * 32 + q[3]
  {
    assert q[..3] == [q[0], q[1], q[2]] && [q[0], q[1], q[2]][..2] == [q[0], q[1]];
    assert [q[0], q[1]][..1] == [q[0]] && [q[0]][..0] == [];
    assert ToNumber([q[0]], 32) == q[0] && ToNumber([q[0], q[1]], 32) == q[0] * 32 + q[1];
    assert ToNumber(q[..3], 32) == (q[0] * 32 + q[1]) * 32 + q[2];
  }

  lemma {:induction false} EightQuintets(q: seq<int>)
    requires |q| == 8
    ensures ToNumber(q, 32) == ToNumber(q[..4], 32) * 1048576 + q[4] * 32768 + q[5] * 1024 + q[6] * 32 + q[7]
  {
    var n := ToNumber(q[..4], 32);
    assert q[..5][..4] == q[..4] && q[..6][..5] == q[..5] && q[..7][..6] == q[..6];
    assert ToNumber(q[..5], 32) == n * 32 + q[4];
    assert ToNumber(q[..6], 32) == (n * 32 + q[4]) * 32 + q[5];
    assert ToNumber(q[..7], 32) == ((n * 32 + q[4]) * 32 + q[5]) * 32 + q[6];
  }

  /** A text starts with the eight characters of its first five bytes: the same number, in 32 digits and in
      256, both most significant first; the rest of the bytes follow. */
  lemma {:induction false} EncodesNumbers(b: seq<Byte>) returns (q: seq<int>)
    requires |b| % 5 == 0 && |b| >= 5
    ensures |q| == 8 && |Encode(b)| >= 8 && Encode(b)[8..] == Encode(b[5..])
    ensures forall k :: 0 <= k < 8 ==> 0 <= q[k] < 32 && Encode(b)[k] == "ABCDEFGHIJKLMNOPQRSTUVWXYZ234567"[q[k]]
    ensures ((q[0] * 32768 + q[1] * 1024 + q[2] * 32 + q[3]) * 1048576
             + q[4] * 32768 + q[5] * 1024 + q[6] * 32 + q[7])
         == (b[0] as int) * 4294967296 + (b[1] as int) * 16777216 + (b[2] as int) * 65536 + (b[3] as int) * 256 + b[4]
  {
    hide Encode, ToNumber, ToDigits, Pow, Chars, EncodeGroup;
    var front := b[..5];
    q := EncodeGroup(front);
    EncodeOne(b);
    GroupNumber(front);
    FiveBytes(front);
    FourQuintets(q[..4]);
    EightQuintets(q);
    CharsAre(q);
    assert Encode(b)[..8] == Chars(q);
  }

  lemma {:induction false} GroupNumber(b: seq<Byte>)
    requires |b| == 5
    ensures ToNumber(EncodeGroup(b), 32) == ToNumber(b, 256)
  {
    hide ToNumber, ToDigits, Pow;
    NumberFits(b, 256);
    SameRange();
    NumberOfDigits(ToNumber(b, 256), 32, 8);
  }

  lemma {:induction false} CharsAre(q: seq<int>)
    requires Digits(q, 32)
    ensures forall k :: 0 <= k < |q| ==> Chars(q)[k] == "ABCDEFGHIJKLMNOPQRSTUVWXYZ234567"[q[k]]
  {
  }

  /** Whole groups of characters, all of them in the alphabet. */
  function DecodeGroups(s: string): (b: seq<Byte>)
    requires |s| % 8 == 0 && AllInAlphabet(s)
    ensures |b| == |s| / 8 * 5
  {
    if s == [] then [] else DecodeGroup(Values(s[..8])) + DecodeGroups(s[8..])
  }

  /** How many of the trailing characters are padding. */
  function Padding(s: string): (n: nat)
    ensures n <= |s| && (n < |s| ==> s[|s| - n - 1] != '=')
    ensures forall k :: |s| - n <= k < |s| ==> s[k] == '='
  {
    if s == [] || s[|s| - 1] != '=' then 0 else 1 + Padding(s[..|s| - 1])
  }

  /** The bytes left of the last group for each legal padding. */
  function Leftover(padding: nat): (n: nat)
    requires padding in {0, 1, 3, 4, 6}
    ensures n <= 5 && (n == 5 <==> padding == 0)
  {
    (43 - 5 * padding) / 8
  }

  function Zeros(n: nat): (s: string)
    ensures |s| == n && AllInAlphabet(s)
  {
    seq(n, k => 'A')
  }

  /** The decoder: padding is stripped and counted, other characters must be in the alphabet, and a padded
      last group loses the bytes its padding stands for. */
  function Decode(s: string): Option<seq<Byte>>
    requires |s| % 8 == 0
  {
    var padding := Padding(s);
    var text := s[..|s| - padding];
    if !AllInAlphabet(text) || padding !in {0, 1, 3, 4, 6} then None
    else
      var bytes := DecodeGroups(text + Zeros(padding));
      Some(bytes[..|bytes| - (5 - if bytes == [] then 5 else Leftover(padding))])
  }

  lemma {:induction false} GroupsRoundTrip(b: seq<Byte>)
    requires |b| % 5 == 0
    ensures AllInAlphabet(Encode(b)) && DecodeGroups(Encode(b)) == b
  {
    hide EncodeGroup, DecodeGroup, Chars, Values, ValueOf;
    if b != [] {
      var q, s := EncodeGroup(b[..5]), Encode(b);
      GroupsRoundTrip(b[5..]);
      GroupRoundTrip(b[..5]);
      CharsRoundTrip(q);
      assert s[..8] == Chars(q) && s[8..] == Encode(b[5..]);
      assert b == b[..5] + b[5..];
    }
  }

  lemma {:induction false} GroupsRoundTripBack(s: string)
    requires |s| % 8 == 0 && AllInAlphabet(s)
    ensures Encode(DecodeGroups(s)) == s
  {
    hide EncodeGroup, DecodeGroup, Chars, Values, ValueOf;
    if s != [] {
      var b := DecodeGroups(s);
      GroupsRoundTripBack(s[8..]);
      GroupRoundTripBack(Values(s[..8]));
      ValuesRoundTrip(s[..8]);
      assert b[..5] == DecodeGroup(Values(s[..8])) && b[5..] == DecodeGroups(s[8..]);
      assert s == s[..8] + s[8..];
    }
  }

  lemma {:induction false} NoPadding(s: string)
    requires AllInAlphabet(s) && |s| % 8 == 0
    ensures Padding(s) == 0 && Decode(s) == Some(DecodeGroups(s))
  {
    hide ValueOf, DecodeGroups;
    assert s != [] ==> ValueOf(s[|s| - 1]).Some?;
    PadIsNoDigit();
    assert s[..|s|] == s && s + Zeros(0) == s;
    var bytes := DecodeGroups(s);
    assert bytes[..|bytes|] == bytes;
  }

  lemma {:induction false} PadIsNoDigit()
    ensures ValueOf('=') == None
  {
  }

  /** Decoding undoes encoding. */
  lemma {:induction false} DecodeEncode(b: seq<Byte>)
    requires |b| % 5 == 0
    ensures Decode(Encode(b)) == Some(b)
  {
    hide Decode;
    GroupsRoundTrip(b);
    NoPadding(Encode(b));
  }

  /** A text decodes to as many bytes as its length allows exactly when it is the one text that encodes
      them: no padding, and no other spelling. */
  lemma {:induction false} DecodesWholeIff(s: string, b: seq<Byte>)
    requires |s| % 8 == 0 && |b| == |s| / 8 * 5
    ensures Decode(s) == Some(b) <==> s == Encode(b)
  {
    if s == Encode(b) {
      DecodeEncode(b);
    }
    if Decode(s) == Some(b) {
      WholeIsUnpadded(s);
      NoPadding(s);
      GroupsRoundTripBack(s);
    }
  }

  lemma {:induction false} WholeIsUnpadded(s: string)
    requires |s| % 8 == 0 && Decode(s).Some? && |Decode(s).value| == |s| / 8 * 5
    ensures AllInAlphabet(s)
  {
    hide DecodeGroups, ValueOf;
    if s != [] {
      assert Padding(s) == 0;
      assert s[..|s|] == s;
    }
  }
}
