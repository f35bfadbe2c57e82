/**
 * The loop of `main` in day 3: it feeds the characters of the input one by
 * one to a `StateMachine`, counts the characters accepted since the cursor
 * last left the root, accumulates the two arguments of a `mul` digit by
 * digit, and when a phrase ends tells `do()`, `don't()` and `mul(A,B)` apart
 * by that count. The reference it is proved against, `Scan`, reads the same
 * input in terms of the phrases alone.
 */
module Day3Driver {
  import opened CharConv
  import opened Day3Automaton
  import opened Day3Phrases
  import opened Day3Reference

  // ---------------------------------------------------------------------------
  // The loop of `main`
  // ---------------------------------------------------------------------------

  /**
   * The state of the loop of `main`: the machine's cursor, `result`,
   * `foundComma`, `firstDigit`, `secondDigit`, `nbAccept` and `mulEnabled`.
   */
  datatype Driver = Driver(
    cursor: Cursor, result: int, foundComma: bool, firstDigit: int, secondDigit: int,
    nbAccept: int, mulEnabled: bool)

  const Start: Driver := Driver(Cursor(Root, 0), 0, false, 0, 0, 0, true)

  /**
   * An accepted character updates the accumulators: a digit goes into the
   * second argument once a comma has been seen and into the first before;
   * a comma marks the switch.
   */
  function Absorb(d: Driver, c: char): (e: Driver)
    ensures e.cursor == d.cursor && e.result == d.result && e.nbAccept == d.nbAccept
    ensures e.mulEnabled == d.mulEnabled
  {
    var s := CharToState(c);
    if s == Digit then
      if d.foundComma then d.(secondDigit := d.secondDigit * 10 + DigitValue(c))
      else d.(firstDigit := d.firstDigit * 10 + DigitValue(c))
    else if s == Comma then d.(foundComma := true)
    else d
  }

  /** The accumulators cleared after a completed phrase or a refusal. */
  function Cleared(d: Driver, cursor: Cursor): (e: Driver)
    ensures e.cursor == cursor && e.result == d.result && e.mulEnabled == d.mulEnabled
    ensures !e.foundComma && e.firstDigit == 0 && e.secondDigit == 0 && e.nbAccept == 0
  {
    d.(cursor := cursor, foundComma := false, firstDigit := 0, secondDigit := 0, nbAccept := 0)
  }

  /**
   * One pass of the loop on the character `c`, given what `Accept` returned
   * for it: an accepted character is counted and absorbed; a phrase that
   * ends is told apart by the count (7 for `don't()`, 4 for `do()`, and
   * otherwise a `mul` adds its product when a comma was seen and `mul` is
   * enabled); after an end or a refusal the accumulators are cleared.
   */
  function Pass(d: Driver, o: Outcome, c: char): (e: Driver)
    ensures e.cursor == o.cursor
  {
    if !o.accepted then Cleared(d, o.cursor)
    else
      var a := Absorb(d.(cursor := o.cursor, nbAccept := d.nbAccept + 1), c);
      if !o.endState then a
      else if a.nbAccept == 7 then Cleared(a.(mulEnabled := false), o.cursor)
      else if a.nbAccept == 4 then Cleared(a.(mulEnabled := true), o.cursor)
      else if a.foundComma && a.mulEnabled then
        Cleared(a.(result := a.result + a.firstDigit * a.secondDigit), o.cursor)
      else Cleared(a, o.cursor)
  }

  /** The state of the loop after the characters of `input`, the machine on the table `t`. */
  function DriverRun(t: seq<Node>, input: string): (d: Driver)
    requires WellFormed(t)
    ensures CursorOk(t, d.cursor)
    decreases |input|
  {
    if input == [] then Start
    else
      var p := DriverRun(t, input[..|input| - 1]);
      WellFormedIsLinked(t, p.cursor.node);
      Pass(p, Step(t, p.cursor, CharToState(input[|input| - 1]), false), input[|input| - 1])
  }

  // ---------------------------------------------------------------------------
  // The loop against the reference
  // ---------------------------------------------------------------------------

  /**
   * The accumulators hold what the text `w` read since the root gives: the
   * digits so far of the first argument on the first digit node, all of them
   * and the comma on the comma node, both arguments so far on the second
   * digit node, and nothing elsewhere.
   */
  predicate Accumulated(w: string, d: Driver)
    requires Reached(w, d.cursor)
  {
    match d.cursor.node
      case 5 => !d.foundComma && d.firstDigit == ValueBetween(w, 4, |w|) && d.secondDigit == 0
      case 6 => d.foundComma && d.firstDigit == ValueBetween(w, 4, |w| - 1) && d.secondDigit == 0
      case 7 =>
        d.foundComma && d.firstDigit == ValueBetween(w, 4, |w| - 1 - d.cursor.count)
        && d.secondDigit == ValueBetween(w, |w| - d.cursor.count, |w|)
      case _ => !d.foundComma && d.firstDigit == 0 && d.secondDigit == 0
  }

  /**
   * The loop's state stands for the reference's: the cursor has reached the
   * pending text, `nbAccept` is its length, the accumulators hold its
   * arguments, and the flag and the sum agree.
   */
  predicate Related(d: Driver, r: Scanner) {
    Reached(r.pending, d.cursor) && Accumulated(r.pending, d)
    && d.nbAccept == |r.pending| && d.mulEnabled == r.enabled && d.result == r.total
  }

  /** The loop and the reference start in step. */
  lemma StartRelated()
    ensures Related(Start, Fresh)
  {
  }

  /** A digit on the first digit node extends the first argument. */
  lemma AbsorbInto5(w: string, d: Driver, c: char, next: Cursor)
    requires Reached(w, d.cursor) && Accumulated(w, d) && Reached(w + [c], next) && next.node == 5
    ensures Accumulated(w + [c], Absorb(d.(cursor := next, nbAccept := d.nbAccept + 1), c))
  {
    var v := w + [c];
    assert v[|w|] == c && IsDigit(c);
    assert forall k :: 0 <= k < |w| ==> w[k] == v[k];
    assert HasMulHead(w) && DigitsBetween(w, 4, |w|);
    assert d.cursor.node == (if |w| == 4 then 4 else 5);
    if |w| > 4 {
      assert Agree(w, 4, |w|, v, 0);
      ValueBetweenSame(w, 4, |w|, v, 0);
    }
  }

  /** The comma closes the first argument. */
  lemma AbsorbInto6(w: string, d: Driver, c: char, next: Cursor)
    requires Reached(w, d.cursor) && Accumulated(w, d) && Reached(w + [c], next) && next.node == 6
    ensures Accumulated(w + [c], Absorb(d.(cursor := next, nbAccept := d.nbAccept + 1), c))
  {
    var v := w + [c];
    assert v[|w|] == c && c == ',';
    assert forall k :: 0 <= k < |w| ==> w[k] == v[k];
    assert DigitsBetween(w, 4, |w|) && w[|w| - 1] != ',';
    assert d.cursor.node == 5;
    assert Agree(w, 4, |w|, v, 0);
    ValueBetweenSame(w, 4, |w|, v, 0);
  }

  /** A digit on the second digit node extends the second argument. */
  lemma AbsorbInto7(w: string, d: Driver, c: char, next: Cursor)
    requires Reached(w, d.cursor) && Accumulated(w, d) && Reached(w + [c], next) && next.node == 7
    ensures Accumulated(w + [c], Absorb(d.(cursor := next, nbAccept := d.nbAccept + 1), c))
  {
    var v := w + [c];
    var e := Absorb(d.(cursor := next, nbAccept := d.nbAccept + 1), c);
    assert v[|w|] == c && IsDigit(c);
    assert d.cursor.node == (if next.count == 1 then 6 else 7);
    var comma := |v| - 1 - next.count;
    assert Agree(w, 4, comma, v, 0);
    ValueBetweenSame(w, 4, comma, v, 0);
    if next.count > 1 {
      assert Agree(w, comma + 1, |w|, v, 0);
      ValueBetweenSame(w, comma + 1, |w|, v, 0);
    }
    assert e.foundComma && e.firstDigit == ValueBetween(v, 4, comma);
    assert e.secondDigit == ValueBetween(v, comma + 1, |v|);
    AccumulatedOn7(v, e);
  }

  lemma AccumulatedOn7(v: string, e: Driver)
    requires Reached(v, e.cursor) && e.cursor.node == 7 && e.foundComma
    requires e.firstDigit == ValueBetween(v, 4, |v| - 1 - e.cursor.count)
    requires e.secondDigit == ValueBetween(v, |v| - e.cursor.count, |v|)
    ensures Accumulated(v, e)
  {
  }

  /** Off the digit nodes, nothing is accumulated. */
  lemma AbsorbElsewhere(w: string, d: Driver, c: char, next: Cursor)
    requires Reached(w, d.cursor) && Accumulated(w, d) && Reached(w + [c], next)
    requires next.node != 5 && next.node != 6 && next.node != 7
    ensures Accumulated(w + [c], Absorb(d.(cursor := next, nbAccept := d.nbAccept + 1), c))
  {
    var v := w + [c];
    assert v[|w|] == c && !IsDigit(c) && c != ',';
  }

  /** Absorbing a character keeps the accumulators in step with the text. */
  lemma AbsorbFollows(w: string, d: Driver, c: char, next: Cursor)
    requires Reached(w, d.cursor) && Accumulated(w, d) && Reached(w + [c], next)
    ensures Accumulated(w + [c], Absorb(d.(cursor := next, nbAccept := d.nbAccept + 1), c))
  {
    if next.node == 5 {
      AbsorbInto5(w, d, c, next);
    } else if next.node == 6 {
      AbsorbInto6(w, d, c, next);
    } else if next.node == 7 {
      AbsorbInto7(w, d, c, next);
    } else {
      AbsorbElsewhere(w, d, c, next);
    }
  }

  /** When a `mul` ends, the accumulators hold its two arguments. */
  lemma MulEndsWithArgs(w: string, d: Driver, c: char)
    requires Reached(w, d.cursor) && Accumulated(w, d) && IsMul(w + [c])
    ensures c == ')' && d.foundComma
    ensures d.firstDigit == FirstArg(w + [c]) && d.secondDigit == SecondArg(w + [c])
  {
    var v := w + [c];
    var a := FirstArgLength(v);
    assert v[|w|] == c;
    assert forall k :: 0 <= k < |w| ==> w[k] == v[k];
    assert w[4 + a] == ',' && IsDigit(w[|w| - 1]);
    assert d.cursor.node == 7;
    var count := d.cursor.count;
    assert IsMulWith(v, |w| - 5 - count);
    MulSplitUnique(v, a, |w| - 5 - count);
    assert Agree(w, 4, 4 + a, v, 0) && Agree(w, 5 + a, |w|, v, 0);
    ValueBetweenSame(w, 4, 4 + a, v, 0);
    ValueBetweenSame(w, 5 + a, |w|, v, 0);
  }

  /**
   * What `Accept` returned for `c` after the text `w`, as far as the phrases
   * go: it ends a phrase exactly when `w + [c]` is one, and then goes back
   * to the root; it accepts without an end only onto a cursor that has
   * reached `w + [c]`; it refuses only when no cursor reaches `w + [c]`, and
   * then goes back to the root.
   */
  ghost predicate Agrees(w: string, o: Outcome, c: char) {
    (o.endState <==> IsPhrase(w + [c]))
    && (o.endState ==> o.accepted && o.cursor == Cursor(Root, 0))
    && (o.accepted && !o.endState ==> Reached(w + [c], o.cursor))
    && (!o.accepted ==> o.cursor == Cursor(Root, 0) && forall next :: !Reached(w + [c], next))
  }

  /** A refused character drops the pending text, as the reference does. */
  lemma RefusedRefines(d: Driver, r: Scanner, o: Outcome, c: char)
    requires Related(d, r) && Agrees(r.pending, o, c) && !o.accepted
    ensures Related(Pass(d, o, c), ScanChar(r, c))
  {
    var v := r.pending + [c];
    if IsProperPrefix(v) {
      ProperPrefixIsReached(v);
      assert false;
    }
  }

  /** An accepted character that ends nothing extends the pending text. */
  lemma ContinuesRefines(d: Driver, r: Scanner, o: Outcome, c: char)
    requires Related(d, r) && Agrees(r.pending, o, c) && o.accepted && !o.endState
    ensures Related(Pass(d, o, c), ScanChar(r, c))
  {
    var v := r.pending + [c];
    ReachedIsProperPrefix(v, o.cursor);
    assert ScanChar(r, c) == Scanner(v, r.enabled, r.total);
    AbsorbFollows(r.pending, d, c, o.cursor);
  }

  /**
   * A character that ends a phrase: the count of accepted characters tells
   * `don't()` (7) and `do()` (4) from a `mul` (8 to 12), whose arguments the
   * accumulators hold.
   */
  lemma EndsRefines(d: Driver, r: Scanner, o: Outcome, c: char)
    requires Related(d, r) && Agrees(r.pending, o, c) && o.endState
    ensures Related(Pass(d, o, c), ScanChar(r, c))
  {
    var v := r.pending + [c];
    PhraseByLength(v);
    if IsMul(v) {
      MulEndsWithArgs(r.pending, d, c);
    }
  }

  /**
   * One pass of the loop keeps it in step with the reference: whatever the
   * character, after `Accept` on the table `t` the new state of the loop
   * stands for the reference after reading it.
   */
  lemma PassRefines(t: seq<Node>, d: Driver, r: Scanner, c: char)
    requires FollowsPhrases(t) && Related(d, r)
    ensures CursorOk(t, d.cursor) && Linked(t, d.cursor.node)
    ensures Related(Pass(d, Step(t, d.cursor, CharToState(c), false), c), ScanChar(r, c))
  {
    assert StepAgrees(t, r.pending, d.cursor, c);
    var o := Step(t, d.cursor, CharToState(c), false);
    assert Agrees(r.pending, o, c);
    if !o.accepted {
      RefusedRefines(d, r, o, c);
    } else if !o.endState {
      ContinuesRefines(d, r, o, c);
    } else {
      EndsRefines(d, r, o, c);
    }
  }

  /** One pass of the loop keeps it in step with the reference reading `input` up to `i`. */
  lemma PassRefinesScan(t: seq<Node>, d: Driver, input: string, i: nat)
    requires FollowsPhrases(t) && i < |input| && Related(d, Scan(input[..i]))
    ensures CursorOk(t, d.cursor) && Linked(t, d.cursor.node)
    ensures Related(Pass(d, Step(t, d.cursor, CharToState(input[i]), false), input[i]), Scan(input[..i + 1]))
  {
    PassRefines(t, d, Scan(input[..i]), input[i]);
    assert input[..i + 1][..i] == input[..i];
  }

  /**
   * The loop over a whole input stands for the reference reading it: in
   * particular it ends with the same sum.
   */
  lemma {:induction false} DriverRunRefines(t: seq<Node>, input: string)
    requires WellFormed(t) && FollowsPhrases(t)
    ensures Related(DriverRun(t, input), Scan(input))
    decreases |input|
  {
    if input == [] {
      StartRelated();
    } else {
      var i := |input| - 1;
      DriverRunRefines(t, input[..i]);
      PassRefinesScan(t, DriverRun(t, input[..i]), input, i);
      assert input[..i + 1] == input;
    }
  }

  // ---------------------------------------------------------------------------
  // The loop itself
  // ---------------------------------------------------------------------------

  /**
   * `main`: a fresh `StateMachine`, then the loop over the characters of
   * `input`, in place of the file it reads. The sum it ends with is the sum
   * of the products of the enabled `mul` phrases the reference finds.
   */
  method RunDriver(input: string) returns (result: int)
    ensures result == Scan(input).total
  {
    var s := new StateMachine();
    TreeBounds(s.nodes);
    var d := Start;
    var i := 0;
    while i < |input|
      invariant 0 <= i <= |input|
      invariant s.Valid() && WellFormed(s.nodes)
      invariant d.cursor == Cursor(s.currentNode, s.nbTimesCurrentNode)
      invariant d == DriverRun(s.nodes, input[..i])
    {
      d := Feed(s, d, input[i]);
      assert input[..i + 1][..i] == input[..i];
      i := i + 1;
    }
    assert input[..i] == input;
    result := d.result;
    RunMatchesScan(s.nodes, input);
  }

  /** On the table the constructor builds, the loop ends with the reference's sum. */
  lemma RunMatchesScan(t: seq<Node>, input: string)
    requires IsTree(t)
    ensures DriverRun(t, input).result == Scan(input).total
  {
    TreeBounds(t);
    TreeFollowsPhrases(t);
    DriverRunRefines(t, input);
  }

  /**
   * One pass of the loop of `main` on the character `currentChar`, the
   * variables of the loop coming in as `d` and going out as `e`; a pass
   * that goes on without clearing returns early, where `main` continues.
   */
  method Feed(s: StateMachine, d: Driver, currentChar: char) returns (e: Driver)
    requires s.Valid() && d.cursor == Cursor(s.currentNode, s.nbTimesCurrentNode)
    modifies s
    ensures s.Valid()
    ensures e.cursor == Cursor(s.currentNode, s.nbTimesCurrentNode)
    ensures e == Pass(d, Step(s.nodes, d.cursor, CharToState(currentChar), false), currentChar)
  {
    var result, foundComma, firstDigit, secondDigit, nbAccept, mulEnabled :=
      d.result, d.foundComma, d.firstDigit, d.secondDigit, d.nbAccept, d.mulEnabled;
    var currentState := CharToState(currentChar);
    var accepted, endState := s.Accept(currentState, false);
    var cursor := Cursor(s.currentNode, s.nbTimesCurrentNode);
    if accepted {
      nbAccept := nbAccept + 1;
      if currentState == Digit {
        var asInt := currentChar as int - '0' as int;
        if foundComma {
          secondDigit := secondDigit * 10 + asInt;
        } else {
          firstDigit := firstDigit * 10 + asInt;
        }
      } else if currentState == Comma {
        foundComma := true;
      }

      if endState {
        if nbAccept == 7 {
          mulEnabled := false;
        } else if nbAccept == 4 {
          mulEnabled := true;
        } else if foundComma && mulEnabled {
          result := result + firstDigit * secondDigit;
        }
      } else {
        return Driver(cursor, result, foundComma, firstDigit, secondDigit, nbAccept, mulEnabled);
      }
    }

    foundComma := false;
    firstDigit := 0;
    secondDigit := 0;
    nbAccept := 0;
    e := Driver(cursor, result, foundComma, firstDigit, secondDigit, nbAccept, mulEnabled);
  }
}
