/** The bracket check on generated code (control-api/app/q_codegen.py, `_is_balanced`): a stack machine
    that accepts exactly the texts whose brackets the balanced grammar derives. */
module Brackets {
  datatype Kind = Curly | Square | Round

  datatype Token = Opening(kind: Kind) | Closing(kind: Kind) | Other

  function Classify(ch: char): Token {
    match ch
    case '{' => Opening(Curly)
    case '[' => Opening(Square)
    case '(' => Opening(Round)
    case '}' => Closing(Curly)
    case ']' => Closing(Square)
    case ')' => Closing(Round)
    case _ => Other
  }

  // ------------------------------------------------------------------ the grammar

  /** S -> nothing | open S close S, with `close` the partner of `open`. */
  datatype Tree = Nothing | Group(kind: Kind, inside: Tree, after: Tree)

  /** The tokens a tree derives. */
  function Yield(t: Tree): seq<Token> {
    match t
    case Nothing => []
    case Group(k, inside, after) => [Opening(k)] + (Yield(inside) + ([Closing(k)] + Yield(after)))
  }

  lemma {:induction false} GroupFront(k: Kind, inside: Tree, after: Tree, x: seq<Token>)
    ensures Yield(Group(k, inside, after)) + x
         == [Opening(k)] + (Yield(inside) + ([Closing(k)] + (Yield(after) + x)))
  {
    var (a, b) := (Yield(inside), Yield(after));
    Associates([Opening(k)], a + ([Closing(k)] + b), x);
    Associates(a, [Closing(k)] + b, x);
    Associates([Closing(k)], b, x);
  }

  lemma {:induction false} Associates(a: seq<Token>, b: seq<Token>, c: seq<Token>)
    ensures (a + b) + c == a + (b + c)
  {
  }

  /** The brackets of a text, in order. */
  function BracketsOf(code: string): (b: seq<Token>)
    ensures forall k :: 0 <= k < |b| ==> !b[k].Other?
  {
    if code == [] then []
    else (if Classify(code[0]).Other? then [] else [Classify(code[0])]) + BracketsOf(code[1..])
  }

  ghost predicate Derivable(code: string) {
    exists t: Tree :: Yield(t) == BracketsOf(code)
  }

  // ------------------------------------------------------------------ the machine

  /** The stack machine's verdict on the rest of the tokens. */
  predicate Accepts(tokens: seq<Token>, stack: seq<Kind>) {
    if tokens == [] then stack == []
    else
      match tokens[0]
      case Opening(k) => Accepts(tokens[1..], stack + [k])
      case Closing(k) =>
        && stack != [] && stack[|stack| - 1] == k
        && Accepts(tokens[1..], stack[..|stack| - 1])
      case Other => Accepts(tokens[1..], stack)
  }

  lemma {:induction false} BracketsSplit(code: string, i: nat)
    requires i < |code|
    ensures BracketsOf(code[i..])
         == (if Classify(code[i]).Other? then [] else [Classify(code[i])]) + BracketsOf(code[i + 1..])
  {
    assert code[i..][0] == code[i] && code[i..][1..] == code[i + 1..];
  }

  /** The program's loop; the answer is the grammar's. */
  method IsBalanced(code: string) returns (balanced: bool)
    ensures balanced <==> Balanced(code)
  {
    hide BracketsOf, Yield, Classify, Derivable, Balanced;
    BalancedIffDerivable(code);
    DerivableIffBalanced(code);
    var stack: seq<Kind> := [];
    assert code[0..] == code;
    for i := 0 to |code|
      invariant Accepts(BracketsOf(code), []) == Accepts(BracketsOf(code[i..]), stack)
    {
      var rest := BracketsOf(code[i + 1..]);
      BracketsSplit(code, i);
      Steps(Classify(code[i]), rest, stack);
      match Classify(code[i]) {
        case Opening(k) =>
          stack := stack + [k];
        case Closing(k) =>
          if stack == [] || stack[|stack| - 1] != k {
            return false;
          }
          stack := stack[..|stack| - 1];
        case Other =>
          assert [] + rest == rest;
      }
    }
    BracketsOfNothing(code);
    return stack == [];
  }

  lemma {:induction false} BracketsOfNothing(code: string)
    ensures BracketsOf(code[|code|..]) == []
  {
  }

  lemma {:induction false} Steps(t: Token, rest: seq<Token>, stack: seq<Kind>)
    ensures t.Opening? ==> Accepts([t] + rest, stack) == Accepts(rest, stack + [t.kind])
    ensures t.Closing? ==>
              Accepts([t] + rest, stack)
              == (stack != [] && stack[|stack| - 1] == t.kind && Accepts(rest, stack[..|stack| - 1]))
  {
    assert ([t] + rest)[1..] == rest;
  }

  // ------------------------------------------------------------------ completeness

  /** Reading a derived text leaves the stack as it was. */
  lemma {:induction false} YieldIsNeutral(t: Tree, rest: seq<Token>, stack: seq<Kind>)
    ensures Accepts(Yield(t) + rest, stack) == Accepts(rest, stack)
    decreases t
  {
    hide Accepts;
    match t
    case Nothing =>
      assert [] + rest == rest;
    case Group(k, inside, after) =>
      var tail := Yield(after) + rest;
      var body := Yield(inside) + ([Closing(k)] + tail);
      GroupFront(k, inside, after, rest);
      Steps(Opening(k), body, stack);
      YieldIsNeutral(inside, [Closing(k)] + tail, stack + [k]);
      Steps(Closing(k), tail, stack + [k]);
      assert (stack + [k])[..|stack|] == stack;
      YieldIsNeutral(after, rest, stack);
  }

  // ------------------------------------------------------------------ soundness

  /** One tree per level: the innermost first, each followed by the bracket that closes its level. */
  function Spell(trees: seq<Tree>, stack: seq<Kind>): seq<Token>
    requires |trees| == |stack| + 1
    decreases |stack|
  {
    var top := |stack| - 1;
    if stack == [] then Yield(trees[0])
    else Yield(trees[top + 1]) + [Closing(stack[top])] + Spell(trees[..top + 1], stack[..top])
  }

  lemma {:induction false} SpellSplit(trees: seq<Tree>, t: Tree, stack: seq<Kind>)
    requires |trees| == |stack|
    ensures Spell(trees + [t], stack) == Yield(t) + Closings(trees, stack)
  {
    hide Yield;
    if stack == [] {
      assert Yield(t) + [] == Yield(t);
    } else {
      var top := |stack| - 1;
      assert (trees + [t])[..|stack|] == trees && (trees + [t])[top + 1] == t;
      Associates(Yield(t), [Closing(stack[top])], Spell(trees, stack[..top]));
    }
  }

  /** What must follow the innermost tree. */
  function Closings(trees: seq<Tree>, stack: seq<Kind>): seq<Token>
    requires |trees| == |stack|
  {
    if stack == [] then []
    else [Closing(stack[|stack| - 1])] + Spell(trees, stack[..|stack| - 1])
  }

  /** Whatever the machine accepts from a stack spells one tree per open level. */
  lemma {:induction false} AcceptedSpells(tokens: seq<Token>, stack: seq<Kind>) returns (trees: seq<Tree>)
    requires Accepts(tokens, stack) && forall k :: 0 <= k < |tokens| ==> !tokens[k].Other?
    ensures |trees| == |stack| + 1 && Spell(trees, stack) == tokens
    decreases |tokens|
  {
    if tokens == [] {
      trees := [Nothing];
    } else {
      assert tokens == [tokens[0]] + tokens[1..];
      match tokens[0]
      case Opening(k) =>
        var inner := AcceptedSpells(tokens[1..], stack + [k]);
        trees := CloseLevel(inner, k, stack);
      case Closing(k) =>
        var top := |stack| - 1;
        var outer := AcceptedSpells(tokens[1..], stack[..top]);
        SpellSplit(outer, Nothing, stack);
        trees := outer + [Nothing];
        assert [] + tokens == tokens;
    }
  }

  /** An opening bracket joins the two innermost trees into one group. */
  lemma {:induction false} CloseLevel(inner: seq<Tree>, k: Kind, stack: seq<Kind>) returns (trees: seq<Tree>)
    requires |inner| == |stack| + 2
    ensures |trees| == |stack| + 1
    ensures Spell(trees, stack) == [Opening(k)] + Spell(inner, stack + [k])
  {
    hide Spell;
    var n := |stack|;
    var (low, b, a) := (inner[..n], inner[n], inner[n + 1]);
    trees := low + [Group(k, a, b)];
    assert inner == (low + [b]) + [a];
    SpellSplit(low + [b], a, stack + [k]);
    assert (stack + [k])[..n] == stack;
    SpellSplit(low, b, stack);
    SpellSplit(low, Group(k, a, b), stack);
  }

  /** Soundness and completeness: the machine accepts exactly the derivable texts. */
  lemma {:induction false} BalancedIffDerivable(code: string)
    ensures Accepts(BracketsOf(code), []) <==> Derivable(code)
  {
    hide Accepts;
    var w := BracketsOf(code);
    if Accepts(w, []) {
      var trees := AcceptedSpells(w, []);
      assert Yield(trees[0]) == w;
    }
    if t :| Yield(t) == w {
      YieldIsNeutral(t, [], []);
      assert Yield(t) + [] == w;
      AcceptsNothing();
    }
  }

  lemma {:induction false} AcceptsNothing()
    ensures Accepts([], [])
  {
  }

  // ------------------------------------------------------------------ the same, on characters

  /** A text read as a tree of its own characters. */
  datatype Code =
    | Empty
    | Plain(ch: char, rest: Code)
    | Wrapped(open: char, body: Code, close: char, rest: Code)

  /** The three pairs, and everything else outside of them. */
  ghost predicate WellMade(c: Code) {
    match c
    case Empty => true
    case Plain(ch, rest) => ch !in "{}[]()" && WellMade(rest)
    case Wrapped(open, body, close, rest) =>
      [open, close] in ["{}", "[]", "()"] && WellMade(body) && WellMade(rest)
  }

  function Written(c: Code): string {
    match c
    case Empty => ""
    case Plain(ch, rest) => [ch] + Written(rest)
    case Wrapped(open, body, close, rest) => [open] + (Written(body) + ([close] + Written(rest)))
  }

  /** A text is balanced when it can be made of plain characters and of the three pairs, each around a
      balanced text. */
  ghost predicate Balanced(code: string) {
    exists c :: WellMade(c) && Written(c) == code
  }

  lemma {:induction false} PairKinds(open: char, close: char)
    ensures [open, close] in ["{}", "[]", "()"]
       <==> exists k :: Classify(open) == Opening(k) && Classify(close) == Closing(k)
    ensures Classify(open).Other? <==> open !in "{}[]()"
  {
    assert [open, close] == "{}" <==> open == '{' && close == '}';
    assert [open, close] == "[]" <==> open == '[' && close == ']';
    assert [open, close] == "()" <==> open == '(' && close == ')';
    assert Classify('{') == Opening(Curly) && Classify('}') == Closing(Curly);
    assert Classify('[') == Opening(Square) && Classify(']') == Closing(Square);
    assert Classify('(') == Opening(Round) && Classify(')') == Closing(Round);
  }

  lemma {:induction false} BracketsFront(ch: char, rest: string)
    ensures BracketsOf([ch] + rest) == (if Classify(ch).Other? then [] else [Classify(ch)]) + BracketsOf(rest)
  {
    assert ([ch] + rest)[1..] == rest;
  }

  lemma {:induction false} WrittenDerives(c: Code) returns (t: Tree)
    requires WellMade(c)
    ensures Yield(t) == BracketsOf(Written(c))
    decreases c
  {
    hide Classify, BracketsOf;
    match c
    case Empty =>
      t := Nothing;
      BracketsOfNothing("");
    case Plain(ch, rest) =>
      t := WrittenDerives(rest);
      PairKinds(ch, ch);
      BracketsFront(ch, Written(rest));
      assert [] + Yield(t) == Yield(t);
    case Wrapped(open, body, close, rest) =>
      var inside := WrittenDerives(body);
      var after := WrittenDerives(rest);
      PairKinds(open, close);
      var k :| Classify(open) == Opening(k) && Classify(close) == Closing(k);
      t := Group(k, inside, after);
      BracketsFront(open, Written(body) + ([close] + Written(rest)));
      BracketsAppend(Written(body), [close] + Written(rest));
      BracketsFront(close, Written(rest));
  }

  /** A text whose brackets fall into two parts can be cut between them, just before a bracket. */
  lemma {:induction false} CutText(code: string, a: seq<Token>, b: seq<Token>) returns (i: nat)
    requires BracketsOf(code) == a + b
    ensures i <= |code| && BracketsOf(code[..i]) == a && BracketsOf(code[i..]) == b
    ensures i < |code| ==> !Classify(code[i]).Other?
    decreases |code|
  {
    hide Classify;
    if code == [] || (a == [] && !Classify(code[0]).Other?) {
      i := 0;
      assert a == [] && a + b == b && code[0..] == code;
    } else {
      var ch, rest := code[0], code[1..];
      assert code == [ch] + rest;
      BracketsFront(ch, rest);
      hide BracketsOf;
      var tail := FrontOut(Classify(ch), BracketsOf(rest), a, b);
      i := CutText(rest, tail, b);
      BracketsFront(ch, rest[..i]);
      assert code[..i + 1] == [ch] + rest[..i] && code[i + 1..] == rest[i..];
      i := i + 1;
    }
  }

  /** What is left of the first part once a character's own bracket, if it is one, is taken from its front. */
  lemma {:induction false} FrontOut(t: Token, rest: seq<Token>, a: seq<Token>, b: seq<Token>) returns (tail: seq<Token>)
    requires (if t.Other? then [] else [t]) + rest == a + b && (a != [] || t.Other?)
    ensures a == (if t.Other? then [] else [t]) + tail && rest == tail + b
  {
    if t.Other? {
      tail := a;
      assert [] + rest == rest && [] + tail == tail;
    } else {
      tail := a[1..];
      assert a + b == [a[0]] + (tail + b) && a == [a[0]] + tail;
      SameFront(t, rest, a[0], tail + b);
    }
  }

  /** Where the brackets go on with a given one, the text itself does. */
  lemma {:induction false} StartsWith(code: string, t: Token, rest: seq<Token>)
    requires BracketsOf(code) == [t] + rest && !Classify(code[0]).Other?
    requires code != []
    ensures Classify(code[0]) == t && BracketsOf(code[1..]) == rest
  {
    hide Classify;
    SameFront(Classify(code[0]), BracketsOf(code[1..]), t, rest);
  }

  lemma {:induction false} DerivedIsWritten(code: string, t: Tree) returns (c: Code)
    requires Yield(t) == BracketsOf(code)
    ensures WellMade(c) && Written(c) == code
    decreases |code|
  {
    hide Classify, BracketsOf;
    if code == [] {
      c := Empty;
    } else if Classify(code[0]).Other? {
      BracketsSplit(code, 0);
      assert code[0..] == code && [] + BracketsOf(code[1..]) == BracketsOf(code[1..]);
      var rest := DerivedIsWritten(code[1..], t);
      PairKinds(code[0], code[0]);
      c := Plain(code[0], rest);
    } else {
      c := DerivedGroup(code, t);
    }
  }

  lemma {:induction false} DerivedGroup(code: string, t: Tree) returns (c: Code)
    requires Yield(t) == BracketsOf(code) && code != [] && !Classify(code[0]).Other?
    ensures WellMade(c) && Written(c) == code
    decreases |code|, 0
  {
    hide Classify, BracketsOf;
    BracketsSplit(code, 0);
    assert code[0..] == code && BracketsOf(code) != [];
    match t
    case Group(k, inside, after) =>
      StartsWith(code, Opening(k), Yield(inside) + ([Closing(k)] + Yield(after)));
      var i := CutText(code[1..], Yield(inside), [Closing(k)] + Yield(after));
      var close := code[1..][i..];
      NotEmptyText(close, Closing(k), Yield(after));
      StartsWith(close, Closing(k), Yield(after));
      var body := DerivedIsWritten(code[1..][..i], inside);
      var rest := DerivedIsWritten(close[1..], after);
      PairKinds(code[0], close[0]);
      c := Wrapped(code[0], body, close[0], rest);
      assert code == [code[0]] + (code[1..][..i] + ([close[0]] + close[1..]));
  }

  lemma {:induction false} NotEmptyText(code: string, t: Token, rest: seq<Token>)
    requires BracketsOf(code) == [t] + rest
    ensures code != []
  {
  }

  /** The grammar on brackets alone and the one on whole texts agree. */
  lemma {:induction false} DerivableIffBalanced(code: string)
    ensures Derivable(code) <==> Balanced(code)
  {
    hide BracketsOf, Yield, WellMade, Written;
    if t :| Yield(t) == BracketsOf(code) {
      var c := DerivedIsWritten(code, t);
    }
    if c :| WellMade(c) && Written(c) == code {
      var t := WrittenDerives(c);
    }
  }

  // ------------------------------------------------------------------ one derivation, and cut-off texts

  ghost predicate StartsClosed(w: seq<Token>) {
    w == [] || w[0].Closing?
  }

  lemma {:induction false} SameFront(a: Token, v: seq<Token>, b: Token, w: seq<Token>)
    requires [a] + v == [b] + w
    ensures a == b && v == w
  {
    assert ([a] + v)[0] == a && ([b] + w)[0] == b;
    assert ([a] + v)[1..] == v && ([b] + w)[1..] == w;
  }

  lemma {:induction false} NotAGroup(k: Kind, v: seq<Token>, x: seq<Token>)
    requires StartsClosed(x)
    ensures x != [Opening(k)] + v
  {
    assert ([Opening(k)] + v)[0] == Opening(k);
  }

  /** Two derived texts followed by nothing or by a closing bracket are split in one way only. */
  lemma {:induction false} YieldSplitsOnce(t: Tree, x: seq<Token>, u: Tree, y: seq<Token>)
    requires Yield(t) + x == Yield(u) + y && StartsClosed(x) && StartsClosed(y)
    ensures t == u && x == y
    decreases t
  {
    match (t, u) {
      case (Nothing, Nothing) =>
        assert [] + x == x && [] + y == y;
      case (Nothing, Group(k, inside, after)) =>
        assert [] + x == x;
        GroupFront(k, inside, after, y);
        NotAGroup(k, Yield(inside) + ([Closing(k)] + (Yield(after) + y)), x);
      case (Group(k, inside, after), Nothing) =>
        assert [] + y == y;
        GroupFront(k, inside, after, x);
        NotAGroup(k, Yield(inside) + ([Closing(k)] + (Yield(after) + x)), y);
      case (Group(k, inside, after), Group(k', inside', after')) =>
        hide Yield;
        var (restT, restU) := (Yield(after) + x, Yield(after') + y);
        GroupFront(k, inside, after, x);
        GroupFront(k', inside', after', y);
        SameFront(Opening(k), Yield(inside) + ([Closing(k)] + restT), Opening(k'), Yield(inside') + ([Closing(k')] + restU));
        YieldSplitsOnce(inside, [Closing(k)] + restT, inside', [Closing(k')] + restU);
        SameFront(Closing(k), restT, Closing(k'), restU);
        YieldSplitsOnce(after, x, after', y);
    }
  }

  /** A text has at most one derivation. */
  lemma {:induction false} DerivationUnique(t: Tree, u: Tree)
    requires Yield(t) == Yield(u)
    ensures t == u
  {
    assert Yield(t) + [] == Yield(u) + [];
    YieldSplitsOnce(t, [], u, []);
  }

  lemma {:induction false} BracketsAppend(a: string, b: string)
    ensures BracketsOf(a + b) == BracketsOf(a) + BracketsOf(b)
  {
    hide Classify;
    if a == [] {
      assert a + b == b;
    } else {
      assert (a + b)[0] == a[0] && (a + b)[1..] == a[1..] + b;
      BracketsAppend(a[1..], b);
    }
  }

  /** What the check can tell of a text that stops early: cut a balanced text in two, and the front passes
      exactly when what is missing is balanced by itself. */
  lemma {:induction false} CutIsSeenIff(front: string, missing: string)
    requires Derivable(front + missing)
    ensures Derivable(front) <==> Derivable(missing)
  {
    hide Accepts, Yield;
    BracketsAppend(front, missing);
    BalancedIffDerivable(front + missing);
    BalancedIffDerivable(missing);
    var (f, m) := (BracketsOf(front), BracketsOf(missing));
    if t :| Yield(t) == f {
      YieldIsNeutral(t, m, []);
    }
    if u :| Yield(u) == m {
      var whole :| Yield(whole) == BracketsOf(front + missing);
      var front' := DropSuffix(whole, f, u);
      assert Yield(front') == f;
    }
  }

  /** Neutral suffixes can be dropped: what is accepted before one is accepted without it. */
  lemma {:induction false} DropSuffix(whole: Tree, f: seq<Token>, u: Tree) returns (t: Tree)
    requires Yield(whole) == f + Yield(u) && forall k :: 0 <= k < |f| ==> !f[k].Other?
    ensures Yield(t) == f
  {
    hide Accepts, Spell, Yield;
    YieldIsNeutral(whole, [], []);
    assert Yield(whole) + [] == f + Yield(u);
    AcceptsNothing();
    NeutralSuffix(f, u, []);
    var trees := AcceptedSpells(f, []);
    t := trees[0];
    SpellOne(trees);
  }

  lemma {:induction false} SpellOne(trees: seq<Tree>)
    requires |trees| == 1
    ensures Spell(trees, []) == Yield(trees[0])
  {
  }

  lemma {:induction false} NeutralSuffix(f: seq<Token>, u: Tree, stack: seq<Kind>)
    requires Accepts(f + Yield(u), stack)
    ensures Accepts(f, stack)
    decreases |f|
  {
    if f == [] {
      assert f + Yield(u) == Yield(u) + [];
      YieldIsNeutral(u, [], stack);
    } else {
      assert (f + Yield(u))[0] == f[0] && (f + Yield(u))[1..] == f[1..] + Yield(u);
      match f[0]
      case Opening(k) => NeutralSuffix(f[1..], u, stack + [k]);
      case Closing(k) => NeutralSuffix(f[1..], u, stack[..|stack| - 1]);
      case Other => NeutralSuffix(f[1..], u, stack);
    }
  }
}
