/**
 * Day 3, what the recogniser recognises: the phrases `do()`, `don't()` and
 * `mul(A,B)` with one to three digits in each of `A` and `B`, and where the
 * cursor of the state machine stands after reading a proper prefix of one of
 * them. The link between the two is one lemma per group of nodes about a
 * single call of `Accept` on the tree.
 */
module Day3Phrases {
  import opened CharConv
  import opened Day3Automaton

  const DoText: string := "do()"
  const DontText: string := "don't()"
  const MulHead: string := "mul("

  /** `w` is `mul(A,B)` where `A` has `a` digits, and both `A` and `B` have one to three. */
  predicate IsMulWith(w: string, a: nat) {
    1 <= a <= 3 && 7 + a <= |w| <= 9 + a
    && HasMulHead(w) && DigitsBetween(w, 4, 4 + a) && w[4 + a] == ','
    && DigitsBetween(w, 5 + a, |w| - 1) && w[|w| - 1] == ')'
  }

  /** `w` starts with `mul(`. */
  predicate HasMulHead(w: string) {
    |w| >= 4 && w[0] == 'm' && w[1] == 'u' && w[2] == 'l' && w[3] == '('
  }

  predicate IsMul(w: string) {
    exists a | 1 <= a <= 3 :: IsMulWith(w, a)
  }

  predicate IsPhrase(w: string) {
    w == DoText || w == DontText || IsMul(w)
  }

  /** `v` is a strict beginning of some phrase; the empty text is one. */
  ghost predicate IsProperPrefix(v: string) {
    exists p {:trigger IsPhrase(p)} :: IsPhrase(p) && |v| < |p| && v == p[..|v|]
  }

  /** The number of digits of the first argument of a `mul`. */
  function FirstArgLength(w: string): (a: nat)
    requires IsMul(w)
    ensures IsMulWith(w, a)
  {
    if IsMulWith(w, 1) then 1 else if IsMulWith(w, 2) then 2 else 3
  }

  /** The comma of a `mul` is where it is: its position is unique. */
  lemma MulSplitUnique(w: string, a: nat, b: nat)
    requires IsMulWith(w, a) && IsMulWith(w, b)
    ensures a == b
  {
  }

  /** The first argument of a `mul`. */
  function FirstArg(w: string): nat
    requires IsMul(w)
  {
    var a := FirstArgLength(w);
    ValueBetween(w, 4, 4 + a)
  }

  /** The second argument of a `mul`. */
  function SecondArg(w: string): nat
    requires IsMul(w)
  {
    var a := FirstArgLength(w);
    ValueBetween(w, 5 + a, |w| - 1)
  }

  /** One to three digits are worth at most 999. */
  lemma {:induction false} ShortRunBound(s: string, lo: nat, hi: nat)
    requires lo <= hi <= |s| && hi - lo <= 3 && DigitsBetween(s, lo, hi)
    ensures ValueBetween(s, lo, hi) <= 999
  {
    ValueBetweenBound(s, lo, hi);
    assert Pow10(hi - lo) <= 1000;
  }

  /** Both arguments of a `mul` are at most 999, so its product is at most 998001. */
  lemma MulArgsBound(w: string)
    requires IsMul(w)
    ensures FirstArg(w) <= 999 && SecondArg(w) <= 999
    ensures FirstArg(w) * SecondArg(w) <= 998001
  {
    var a := FirstArgLength(w);
    ShortRunBound(w, 4, 4 + a);
    ShortRunBound(w, 5 + a, |w| - 1);
    ProductBound(FirstArg(w), SecondArg(w));
  }

  /** A proof step for `MulArgsBound`: the product of two bounded arguments. */
  lemma ProductBound(x: nat, y: nat)
    requires x <= 999 && y <= 999
    ensures x * y <= 998001
  {
    calc {
      x * y;
    <=
      999 * y;
    <=
      999 * 999;
    }
  }

  /**
   * What has been read since the cursor last left the root, given where the
   * cursor stands: the root with nothing read, a letter node with the word up
   * to that letter, or a digit node with one to three digits of its argument
   * so far. The leaves are never stood on.
   */
  predicate Reached(w: string, cur: Cursor) {
    match cur.node
      case 0 => cur.count == 0 && w == []
      case 1 => cur.count == 1 && |w| == 1 && w[0] == 'm'
      case 2 => cur.count == 1 && |w| == 2 && w[0] == 'm' && w[1] == 'u'
      case 3 => cur.count == 1 && |w| == 3 && w[0] == 'm' && w[1] == 'u' && w[2] == 'l'
      case 4 => cur.count == 1 && |w| == 4 && HasMulHead(w)
      case 5 =>
        1 <= cur.count <= 3 && |w| == 4 + cur.count && HasMulHead(w) && DigitsBetween(w, 4, |w|)
      case 6 =>
        cur.count == 1 && 6 <= |w| <= 8 && HasMulHead(w)
        && DigitsBetween(w, 4, |w| - 1) && w[|w| - 1] == ','
      case 7 =>
        1 <= cur.count <= 3 && 6 + cur.count <= |w| <= 8 + cur.count && HasMulHead(w)
        && DigitsBetween(w, 4, |w| - 1 - cur.count) && w[|w| - 1 - cur.count] == ','
        && DigitsBetween(w, |w| - cur.count, |w|)
      case 9 => cur.count == 1 && |w| == 1 && w[0] == 'd'
      case 10 => cur.count == 1 && |w| == 2 && w[0] == 'd' && w[1] == 'o'
      case 11 => cur.count == 1 && |w| == 3 && w[0] == 'd' && w[1] == 'o' && w[2] == '('
      case 13 => cur.count == 1 && |w| == 3 && w[0] == 'd' && w[1] == 'o' && w[2] == 'n'
      case 14 => cur.count == 1 && |w| == 4 && w[0] == 'd' && w[1] == 'o' && w[2] == 'n' && w[3] == '\''
      case 15 => cur.count == 1 && |w| == 5 && w[0] == 'd' && w[1] == 'o' && w[2] == 'n' && w[3] == '\'' && w[4] == 't'
      case 16 => cur.count == 1 && |w| == 6 && w[0] == 'd' && w[1] == 'o' && w[2] == 'n' && w[3] == '\'' && w[4] == 't' && w[5] == '('
      case _ => false
  }

  /** Everything reached off the root starts a `mul` or a `d`. */
  lemma ReachedStart(v: string, cur: Cursor)
    requires Reached(v, cur) && |v| >= 1
    ensures v[0] == 'm' || v[0] == 'd'
  {
  }

  /** A reached cursor is one `Accept` may be called with. */
  lemma ReachedIsOk(t: seq<Node>, w: string, cur: Cursor)
    requires IsTree(t) && Reached(w, cur)
    ensures CursorOk(t, cur) && Linked(t, cur.node)
  {
  }

  /**
   * Reading `c` after `w` from `cur`: the call ends a phrase exactly when
   * `w + [c]` is one; when it accepts without ending one, the new cursor has
   * reached `w + [c]`; when it refuses, no cursor reaches `w + [c]`.
   */
  ghost predicate StepAgrees(t: seq<Node>, w: string, cur: Cursor, c: char) {
    CursorOk(t, cur) && Linked(t, cur.node)
    && var o := Step(t, cur, CharToState(c), false);
    (o.endState <==> IsPhrase(w + [c]))
    && (o.accepted && !o.endState ==> Reached(w + [c], o.cursor))
    && (!o.accepted ==> forall next :: !Reached(w + [c], next))
  }

  /** At the root, only `m` and `d` are taken. */
  lemma StepAt0(t: seq<Node>, w: string, cur: Cursor, c: char)
    requires IsTree(t) && Reached(w, cur) && cur.node == 0
    ensures StepAgrees(t, w, cur, c)
  {
    var s := CharToState(c);
    if c != 'm' && c != 'd' {
      assert s != LetterM && s != LetterD;
      forall next
        ensures !Reached(w + [c], next)
      {
        if Reached(w + [c], next) {
          ReachedStart(w + [c], next);
        }
      }
    }
  }

  /** After `m`, only `u` is taken. */
  lemma StepAt1(t: seq<Node>, w: string, cur: Cursor, c: char)
    requires IsTree(t) && Reached(w, cur) && cur.node == 1
    ensures StepAgrees(t, w, cur, c)
  {
    var v := w + [c];
    ReachedIsOk(t, w, cur);
    assert v[0] == w[0] && v[|w|] == c;
    if c != 'u' {
      assert CharToState(c) != LetterU;
      forall next
        ensures !Reached(w + [c], next)
      {
      }
    }
  }

  /** After `mu`, only `l` is taken. */
  lemma StepAt2(t: seq<Node>, w: string, cur: Cursor, c: char)
    requires IsTree(t) && Reached(w, cur) && cur.node == 2
    ensures StepAgrees(t, w, cur, c)
  {
    var v := w + [c];
    ReachedIsOk(t, w, cur);
    assert v[0] == w[0] && v[1] == w[1] && v[|w|] == c;
    if c != 'l' {
      assert CharToState(c) != LetterL;
      forall next
        ensures !Reached(w + [c], next)
      {
      }
    }
  }

  /** After `mul`, only `(` is taken. */
  lemma StepAt3(t: seq<Node>, w: string, cur: Cursor, c: char)
    requires IsTree(t) && Reached(w, cur) && cur.node == 3
    ensures StepAgrees(t, w, cur, c)
  {
    var v := w + [c];
    ReachedIsOk(t, w, cur);
    assert v[0] == w[0] && v[1] == w[1] && v[2] == w[2] && v[|w|] == c;
    if c != '(' {
      assert CharToState(c) != OpenParenthesis;
      forall next
        ensures !Reached(w + [c], next)
      {
      }
    }
  }

  /** After `d`, only `o` is taken. */
  lemma StepAt9(t: seq<Node>, w: string, cur: Cursor, c: char)
    requires IsTree(t) && Reached(w, cur) && cur.node == 9
    ensures StepAgrees(t, w, cur, c)
  {
    var v := w + [c];
    ReachedIsOk(t, w, cur);
    assert v[0] == w[0] && v[|w|] == c;
    if c != 'o' {
      assert CharToState(c) != LetterO;
      forall next
        ensures !Reached(w + [c], next)
      {
      }
    }
  }

  /** After `don`, only `'` is taken. */
  lemma StepAt13(t: seq<Node>, w: string, cur: Cursor, c: char)
    requires IsTree(t) && Reached(w, cur) && cur.node == 13
    ensures StepAgrees(t, w, cur, c)
  {
    var v := w + [c];
    ReachedIsOk(t, w, cur);
    assert v[0] == w[0] && v[1] == w[1] && v[2] == w[2] && v[|w|] == c;
    if c != '\'' {
      assert CharToState(c) != Quote;
      forall next
        ensures !Reached(w + [c], next)
      {
      }
    }
  }

  /** After `don'`, only `t` is taken. */
  lemma StepAt14(t: seq<Node>, w: string, cur: Cursor, c: char)
    requires IsTree(t) && Reached(w, cur) && cur.node == 14
    ensures StepAgrees(t, w, cur, c)
  {
    var v := w + [c];
    ReachedIsOk(t, w, cur);
    assert v[0] == w[0] && v[1] == w[1] && v[2] == w[2] && v[3] == w[3] && v[|w|] == c;
    if c != 't' {
      assert CharToState(c) != LetterT;
      forall next
        ensures !Reached(w + [c], next)
      {
      }
    }
  }

  /** After `don't`, only `(` is taken. */
  lemma StepAt15(t: seq<Node>, w: string, cur: Cursor, c: char)
    requires IsTree(t) && Reached(w, cur) && cur.node == 15
    ensures StepAgrees(t, w, cur, c)
  {
    var v := w + [c];
    ReachedIsOk(t, w, cur);
    assert v[0] == w[0] && v[1] == w[1] && v[2] == w[2] && v[3] == w[3] && v[4] == w[4] && v[|w|] == c;
    if c != '(' {
      assert CharToState(c) != OpenParenthesis;
      forall next
        ensures !Reached(w + [c], next)
      {
      }
    }
  }

  /** After `do(`, only `)` is taken, and it ends the phrase `do()`. */
  lemma StepAt11(t: seq<Node>, w: string, cur: Cursor, c: char)
    requires IsTree(t) && Reached(w, cur) && cur.node == 11
    ensures StepAgrees(t, w, cur, c)
  {
    var v := w + [c];
    ReachedIsOk(t, w, cur);
    assert v[0] == w[0] && v[1] == w[1] && v[2] == w[2] && v[|w|] == c;
    if c != ')' {
      assert CharToState(c) != CloseParenthesis;
      forall next
        ensures !Reached(w + [c], next)
      {
      }
    }
  }

  /** After `don't(`, only `)` is taken, and it ends the phrase `don't()`. */
  lemma StepAt16(t: seq<Node>, w: string, cur: Cursor, c: char)
    requires IsTree(t) && Reached(w, cur) && cur.node == 16
    ensures StepAgrees(t, w, cur, c)
  {
    var v := w + [c];
    ReachedIsOk(t, w, cur);
    assert v[0] == w[0] && v[1] == w[1] && v[2] == w[2] && v[3] == w[3] && v[4] == w[4] && v[5] == w[5] && v[|w|] == c;
    if c != ')' {
      assert CharToState(c) != CloseParenthesis;
      forall next
        ensures !Reached(w + [c], next)
      {
      }
    }
  }

  /** After `do`, `(` goes on towards `do()` and `n` towards `don't()`. */
  lemma StepAt10(t: seq<Node>, w: string, cur: Cursor, c: char)
    requires IsTree(t) && Reached(w, cur) && cur.node == 10
    ensures StepAgrees(t, w, cur, c)
  {
    var v := w + [c];
    assert v[0] == w[0] && v[1] == w[1] && v[|w|] == c;
    assert !IsPhrase(v) by {
      assert |v| == 3;
    }
    ReachedIsOk(t, w, cur);
    assert t[10] == TreeNode(10) && t[11] == TreeNode(11) && t[13] == TreeNode(13);
    if c == '(' {
      assert Step(t, cur, CharToState(c), false) == Outcome(true, false, Cursor(11, 1));
    } else if c == 'n' {
      assert Step(t, cur, CharToState(c), false) == Outcome(true, false, Cursor(13, 1));
    } else {
      assert CharToState(c) != OpenParenthesis && CharToState(c) != LetterN;
      assert Step(t, cur, CharToState(c), false) == Outcome(false, false, Cursor(Root, 0));
      forall next
        ensures !Reached(v, next)
      {
      }
    }
  }

  /** After `mul(`, only a digit is taken: the first of the first argument. */
  lemma StepAt4(t: seq<Node>, w: string, cur: Cursor, c: char)
    requires IsTree(t) && Reached(w, cur) && cur.node == 4
    ensures StepAgrees(t, w, cur, c)
  {
    var v := w + [c];
    assert v[0] == w[0] && v[1] == w[1] && v[2] == w[2] && v[3] == w[3] && v[|w|] == c;
    if !IsDigit(c) {
      assert CharToState(c) != Digit;
      forall next
        ensures !Reached(w + [c], next)
      {
      }
    }
  }

  /**
   * Inside the first argument: a digit is taken in place up to the third, a
   * comma ends the argument, and anything else is refused.
   */
  lemma StepAt5(t: seq<Node>, w: string, cur: Cursor, c: char)
    requires IsTree(t) && Reached(w, cur) && cur.node == 5
    ensures StepAgrees(t, w, cur, c)
  {
    if IsDigit(c) && cur.count < 3 {
      StepAt5Digit(t, w, cur, c);
    } else if IsDigit(c) {
      StepAt5Overflow(t, w, cur, c);
    } else if c == ',' {
      StepAt5Comma(t, w, cur, c);
    } else {
      StepAt5Other(t, w, cur, c);
    }
  }

  /** The text after one more character on the first digit node, character by character. */
  lemma On5Shape(w: string, cur: Cursor, c: char)
    requires Reached(w, cur) && cur.node == 5
    ensures var v := w + [c];
      v[0] == 'm' && v[1] == 'u' && v[2] == 'l' && v[3] == '(' && v[|w|] == c
      && DigitsBetween(v, 4, |w|)
  {
    var v := w + [c];
    assert forall j :: 0 <= j < |w| ==> v[j] == w[j];
  }

  lemma StepAt5Digit(t: seq<Node>, w: string, cur: Cursor, c: char)
    requires IsTree(t) && Reached(w, cur) && cur.node == 5 && IsDigit(c) && cur.count < 3
    ensures StepAgrees(t, w, cur, c)
  {
    On5Shape(w, cur, c);
  }

  lemma StepAt5Overflow(t: seq<Node>, w: string, cur: Cursor, c: char)
    requires IsTree(t) && Reached(w, cur) && cur.node == 5 && IsDigit(c) && cur.count == 3
    ensures StepAgrees(t, w, cur, c)
  {
    On5Shape(w, cur, c);
    forall next
      ensures !Reached(w + [c], next)
    {
    }
  }

  lemma StepAt5Comma(t: seq<Node>, w: string, cur: Cursor, c: char)
    requires IsTree(t) && Reached(w, cur) && cur.node == 5 && c == ','
    ensures StepAgrees(t, w, cur, c)
  {
    On5Shape(w, cur, c);
  }

  lemma StepAt5Other(t: seq<Node>, w: string, cur: Cursor, c: char)
    requires IsTree(t) && Reached(w, cur) && cur.node == 5 && !IsDigit(c) && c != ','
    ensures StepAgrees(t, w, cur, c)
  {
    On5Shape(w, cur, c);
    assert CharToState(c) != Digit && CharToState(c) != Comma;
    forall next
      ensures !Reached(w + [c], next)
    {
    }
  }

  /** After the comma, only a digit is taken: the first of the second argument. */
  lemma StepAt6(t: seq<Node>, w: string, cur: Cursor, c: char)
    requires IsTree(t) && Reached(w, cur) && cur.node == 6
    ensures StepAgrees(t, w, cur, c)
  {
    if IsDigit(c) {
      StepAt6Digit(t, w, cur, c);
    } else {
      StepAt6Other(t, w, cur, c);
    }
  }

  /** The text after one more character on the comma node, character by character. */
  lemma On6Shape(w: string, cur: Cursor, c: char)
    requires Reached(w, cur) && cur.node == 6
    ensures var v := w + [c];
      v[0] == 'm' && v[1] == 'u' && v[2] == 'l' && v[3] == '(' && v[|w|] == c
      && v[|w| - 1] == ',' && DigitsBetween(v, 4, |w| - 1)
  {
    var v := w + [c];
    assert forall j :: 0 <= j < |w| ==> v[j] == w[j];
  }

  lemma StepAt6Digit(t: seq<Node>, w: string, cur: Cursor, c: char)
    requires IsTree(t) && Reached(w, cur) && cur.node == 6 && IsDigit(c)
    ensures StepAgrees(t, w, cur, c)
  {
    On6Shape(w, cur, c);
    assert DigitsBetween(w + [c], |w|, |w| + 1);
  }

  lemma StepAt6Other(t: seq<Node>, w: string, cur: Cursor, c: char)
    requires IsTree(t) && Reached(w, cur) && cur.node == 6 && !IsDigit(c)
    ensures StepAgrees(t, w, cur, c)
  {
    On6Shape(w, cur, c);
    assert CharToState(c) != Digit;
    forall next
      ensures !Reached(w + [c], next)
    {
    }
  }

  /**
   * Inside the second argument: a digit is taken in place up to the third, a
   * closing parenthesis ends the `mul`, and anything else is refused.
   */
  lemma StepAt7(t: seq<Node>, w: string, cur: Cursor, c: char)
    requires IsTree(t) && Reached(w, cur) && cur.node == 7
    ensures StepAgrees(t, w, cur, c)
  {
    if IsDigit(c) && cur.count < 3 {
      StepAt7Digit(t, w, cur, c);
    } else if IsDigit(c) {
      StepAt7Overflow(t, w, cur, c);
    } else if c == ')' {
      StepAt7Close(t, w, cur, c);
    } else {
      StepAt7Other(t, w, cur, c);
    }
  }

  /** The text after one more character on the second digit node, character by character. */
  lemma On7Shape(w: string, cur: Cursor, c: char)
    requires Reached(w, cur) && cur.node == 7
    ensures var v, comma := w + [c], |w| - 1 - cur.count;
      v[0] == 'm' && v[1] == 'u' && v[2] == 'l' && v[3] == '(' && v[|w|] == c
      && 5 <= comma < |w| && v[comma] == ','
      && DigitsBetween(v, 4, comma) && DigitsBetween(v, comma + 1, |w|)
  {
    var v := w + [c];
    var comma := |w| - 1 - cur.count;
    assert forall j :: 0 <= j < |w| ==> v[j] == w[j];
  }

  lemma StepAt7Digit(t: seq<Node>, w: string, cur: Cursor, c: char)
    requires IsTree(t) && Reached(w, cur) && cur.node == 7 && IsDigit(c) && cur.count < 3
    ensures StepAgrees(t, w, cur, c)
  {
    On7Shape(w, cur, c);
  }

  lemma StepAt7Overflow(t: seq<Node>, w: string, cur: Cursor, c: char)
    requires IsTree(t) && Reached(w, cur) && cur.node == 7 && IsDigit(c) && cur.count == 3
    ensures StepAgrees(t, w, cur, c)
  {
    On7Shape(w, cur, c);
    forall next
      ensures !Reached(w + [c], next)
    {
    }
  }

  lemma StepAt7Close(t: seq<Node>, w: string, cur: Cursor, c: char)
    requires IsTree(t) && Reached(w, cur) && cur.node == 7 && c == ')'
    ensures StepAgrees(t, w, cur, c)
  {
    On7Shape(w, cur, c);
    assert IsMulWith(w + [c], |w| - 5 - cur.count);
  }

  lemma StepAt7Other(t: seq<Node>, w: string, cur: Cursor, c: char)
    requires IsTree(t) && Reached(w, cur) && cur.node == 7 && !IsDigit(c) && c != ')'
    ensures StepAgrees(t, w, cur, c)
  {
    On7Shape(w, cur, c);
    assert CharToState(c) != Digit && CharToState(c) != CloseParenthesis;
    forall next
      ensures !Reached(w + [c], next)
    {
    }
  }

  /**
   * One call of `Accept` from any reached cursor: it ends a phrase exactly
   * when the text read is one, and otherwise stays on the proper prefixes.
   */
  lemma StepFollowsPhrases(t: seq<Node>, w: string, cur: Cursor, c: char)
    requires IsTree(t) && Reached(w, cur)
    ensures StepAgrees(t, w, cur, c)
  {
    match cur.node
      case 0 => StepAt0(t, w, cur, c);
      case 1 => StepAt1(t, w, cur, c);
      case 2 => StepAt2(t, w, cur, c);
      case 3 => StepAt3(t, w, cur, c);
      case 4 => StepAt4(t, w, cur, c);
      case 5 => StepAt5(t, w, cur, c);
      case 6 => StepAt6(t, w, cur, c);
      case 7 => StepAt7(t, w, cur, c);
      case 9 => StepAt9(t, w, cur, c);
      case 10 => StepAt10(t, w, cur, c);
      case 11 => StepAt11(t, w, cur, c);
      case 13 => StepAt13(t, w, cur, c);
      case 14 => StepAt14(t, w, cur, c);
      case 15 => StepAt15(t, w, cur, c);
      case 16 => StepAt16(t, w, cur, c);
  }

  /** The table `t` steps as the phrases say from every reached cursor. */
  ghost predicate FollowsPhrases(t: seq<Node>) {
    forall w, cur, c :: Reached(w, cur) ==> StepAgrees(t, w, cur, c)
  }

  /** The table of the constructor steps as the phrases say. */
  lemma TreeFollowsPhrases(t: seq<Node>)
    requires IsTree(t)
    ensures FollowsPhrases(t)
  {
    forall w, cur, c | Reached(w, cur)
      ensures StepAgrees(t, w, cur, c)
    {
      StepFollowsPhrases(t, w, cur, c);
    }
  }

  /** Every text a cursor reaches is a strict beginning of some phrase. */
  lemma ReachedIsProperPrefix(v: string, cur: Cursor)
    requires Reached(v, cur)
    ensures IsProperPrefix(v)
  {
    var p: string;
    if cur.node == 0 || 9 <= cur.node <= 11 {
      p := DoText;
    } else if 13 <= cur.node {
      p := DontText;
    } else if cur.node <= 4 {
      p := "mul(1,1)";
      assert IsMulWith(p, 1);
    } else if cur.node == 5 {
      p := v + ",1)";
      assert IsMulWith(p, cur.count);
    } else if cur.node == 6 {
      p := v + "1)";
      assert IsMulWith(p, |v| - 5);
    } else {
      p := v + ")";
      assert IsMulWith(p, |v| - 5 - cur.count);
    }
    assert IsPhrase(p) && v == p[..|v|];
  }

  /** Every strict beginning of a phrase is reached by some cursor. */
  lemma ProperPrefixIsReached(v: string)
    requires IsProperPrefix(v)
    ensures exists cur :: Reached(v, cur)
  {
    var p :| IsPhrase(p) && |v| < |p| && v == p[..|v|];
    if p == DoText {
      DoPrefixReached(v);
    } else if p == DontText {
      DontPrefixReached(v);
    } else {
      MulPrefixReached(v, p);
    }
  }

  lemma DoPrefixReached(v: string)
    requires |v| < |DoText| && v == DoText[..|v|]
    ensures exists cur :: Reached(v, cur)
  {
    var k := |v|;
    assert forall j :: 0 <= j < k ==> v[j] == DoText[j];
    var node := if k == 0 then 0 else 8 + k;
    assert Reached(v, Cursor(node, if k == 0 then 0 else 1));
  }

  lemma DontPrefixReached(v: string)
    requires |v| < |DontText| && v == DontText[..|v|]
    ensures exists cur :: Reached(v, cur)
  {
    var k := |v|;
    assert forall j :: 0 <= j < k ==> v[j] == DontText[j];
    var node := if k == 0 then 0 else if k <= 2 then 8 + k else 10 + k;
    assert Reached(v, Cursor(node, if k == 0 then 0 else 1));
  }

  lemma MulPrefixReached(v: string, p: string)
    requires IsMul(p) && |v| < |p| && v == p[..|v|]
    ensures exists cur :: Reached(v, cur)
  {
    var k := |v|;
    assert forall j :: 0 <= j < k ==> v[j] == p[j];
    var a := FirstArgLength(p);
    if k <= 4 {
      assert Reached(v, Cursor(k, if k == 0 then 0 else 1));
    } else if k <= 4 + a {
      assert Reached(v, Cursor(5, k - 4));
    } else if k == 5 + a {
      assert Reached(v, Cursor(6, 1));
    } else {
      assert Reached(v, Cursor(7, k - 5 - a));
    }
  }

  /**
   * The length of a phrase tells which one it is: `do()` is the only one of
   * four characters, `don't()` the only one of seven, and every `mul(A,B)`
   * has eight to twelve.
   */
  lemma PhraseByLength(v: string)
    requires IsPhrase(v)
    ensures |v| == 4 <==> v == DoText
    ensures |v| == 7 <==> v == DontText
    ensures IsMul(v) <==> 8 <= |v|
    ensures |v| <= 12
  {
  }
}
