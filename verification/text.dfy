/** String operations on ASCII text, as several parts of the program use them. */
module Text {
  function Upper(c: char): char {
    if 'a' <= c <= 'z' then c - 'a' + 'A' else c
  }

  function UpperAll(s: string): (u: string)
    ensures |u| == |s|
  {
    seq(|s|, k requires 0 <= k < |s| => Upper(s[k]))
  }

  /** White space among ASCII characters. */
  predicate IsSpace(c: char) {
    c == ' ' || 9 as char <= c <= 13 as char || 28 as char <= c <= 31 as char
  }

  function StripLeft(s: string): string {
    if s == [] || !IsSpace(s[0]) then s else StripLeft(s[1..])
  }

  function StripRight(s: string): string {
    if s == [] || !IsSpace(s[|s| - 1]) then s else StripRight(s[..|s| - 1])
  }

  function Strip(s: string): string {
    StripRight(StripLeft(s))
  }

  /** Small letters become their capitals; every other character stays. */
  lemma {:induction false} UpperLetters(k: nat)
    requires k < 26
    ensures Upper("abcdefghijklmnopqrstuvwxyz"[k]) == "ABCDEFGHIJKLMNOPQRSTUVWXYZ"[k]
    ensures forall c: char :: c !in "abcdefghijklmnopqrstuvwxyz" ==> Upper(c) == c
  {
    var small := "abcdefghijklmnopqrstuvwxyz";
    forall c: char | 'a' <= c <= 'z'
      ensures c in small
    {
      assert small[c as int - 'a' as int] == c;
    }
  }

  /** Stripping takes the white space around a text and nothing else. */
  lemma {:induction false} StripPads(left: string, core: string, right: string)
    requires forall c :: c in left + right ==> IsSpace(c)
    requires core != [] ==> !IsSpace(core[0]) && !IsSpace(core[|core| - 1])
    ensures Strip(left + core + right) == core
    decreases |left|, |right|
  {
    var s := left + core + right;
    if left != [] {
      assert s[0] == left[0] && left[0] in left + right;
      assert s[1..] == left[1..] + core + right;
      assert forall c :: c in left[1..] + right ==> c in left + right;
      StripPads(left[1..], core, right);
    } else if core == [] {
      assert s == right;
      StripSpaces(right);
    } else {
      assert s == core + right && StripLeft(s) == s;
      RightPad(core, right);
    }
  }

  lemma {:induction false} StripSpaces(s: string)
    requires forall c :: c in s ==> IsSpace(c)
    ensures StripLeft(s) == []
  {
    if s != [] {
      StripSpaces(s[1..]);
    }
  }

  lemma {:induction false} RightPad(core: string, right: string)
    requires forall c :: c in right ==> IsSpace(c)
    requires core != [] && !IsSpace(core[|core| - 1])
    ensures StripRight(core + right) == core
    decreases |right|
  {
    if right == [] {
      assert core + right == core;
    } else {
      assert (core + right)[..|core + right| - 1] == core + right[..|right| - 1];
      RightPad(core, right[..|right| - 1]);
    }
  }

  lemma {:induction false} WhiteSpace()
    ensures IsSpace(' ') && IsSpace('\t') && IsSpace('\n') && IsSpace('\r')
    ensures forall c: char :: IsSpace(c) <==> c as int in {9, 10, 11, 12, 13, 28, 29, 30, 31, 32}
  {
    assert '\t' == 9 as char && '\n' == 10 as char && '\r' == 13 as char;
  }
}
