/**
 * What day 3 computes, stated on phrases rather than on the automaton: the
 * input is read character by character, keeping the text that can still
 * grow into `mul(A,B)`, `do()` or `don't()`, and acting on each phrase it
 * completes.
 */
module Day3Reference {
  import opened CharConv
  import opened Day3Automaton
  import opened Day3Phrases

  /**
   * A reader of the input that knows only the phrases: the text read since
   * the last phrase or refusal, whether `mul` is enabled, and the sum so far.
   */
  datatype Scanner = Scanner(pending: string, enabled: bool, total: int)

  const Fresh: Scanner := Scanner([], true, 0)

  /**
   * Reading `c`: a completed `do()` enables `mul`, a completed `don't()`
   * disables it, a completed `mul(A,B)` adds `A * B` while enabled; a text
   * that can still grow into a phrase is kept, and any other text is dropped
   * together with `c` itself (a refused character does not start anew).
   */
  ghost function ScanChar(r: Scanner, c: char): Scanner {
    var v := r.pending + [c];
    if v == DoText then Scanner([], true, r.total)
    else if v == DontText then Scanner([], false, r.total)
    else if IsMul(v) then
      Scanner([], r.enabled, if r.enabled then r.total + FirstArg(v) * SecondArg(v) else r.total)
    else if IsProperPrefix(v) then Scanner(v, r.enabled, r.total)
    else Scanner([], r.enabled, r.total)
  }

  ghost function ScanFrom(r: Scanner, input: string): Scanner
    decreases |input|
  {
    if input == [] then r else ScanChar(ScanFrom(r, input[..|input| - 1]), input[|input| - 1])
  }

  /** The reference reading of a whole input, from the start. */
  ghost function Scan(input: string): Scanner {
    ScanFrom(Fresh, input)
  }

  /** A proof step for the scan lemmas: a text is its beginning and its last character. */
  lemma LastSplit(s: string)
    requires |s| >= 1
    ensures s[..|s| - 1] + [s[|s| - 1]] == s
  {
  }

  /** Reading `a` then `b` is reading `a + b`. */
  lemma {:induction false} ScanFromAppend(r: Scanner, a: string, b: string)
    ensures ScanFrom(r, a + b) == ScanFrom(ScanFrom(r, a), b)
    decreases |b|
  {
    if b == [] {
      assert a + b == a;
    } else {
      var u := b[..|b| - 1];
      ScanFromAppend(r, a, u);
      assert (a + b)[..|a + b| - 1] == a + u;
    }
  }

  /** Every phrase ends in `)`. */
  lemma PhraseEndsWithParen(v: string)
    requires IsPhrase(v)
    ensures |v| >= 4 && v[|v| - 1] == ')'
  {
  }

  /** No strict beginning of a phrase is itself a phrase: only a phrase ends in `)`. */
  lemma ProperPrefixNotPhrase(v: string)
    requires IsProperPrefix(v)
    ensures !IsPhrase(v)
  {
    ProperPrefixIsReached(v);
    var cur :| Reached(v, cur);
    if |v| > 0 {
      assert v[|v| - 1] != ')';
    }
  }

  lemma PrefixOfProperPrefix(v: string, k: nat)
    requires IsProperPrefix(v) && k <= |v|
    ensures IsProperPrefix(v[..k])
  {
    var p :| IsPhrase(p) && |v| < |p| && v == p[..|v|];
    assert v[..k] == p[..k];
  }

  /** Along a strict beginning of a phrase, nothing happens but that it is kept. */
  lemma {:induction false} ScanAlongPrefix(r: Scanner, w: string)
    requires r.pending == [] && IsProperPrefix(w)
    ensures ScanFrom(r, w) == Scanner(w, r.enabled, r.total)
    decreases |w|
  {
    if w != [] {
      var u := w[..|w| - 1];
      PrefixOfProperPrefix(w, |w| - 1);
      ScanAlongPrefix(r, u);
      ProperPrefixNotPhrase(w);
      LastSplit(w);
    }
  }

  /**
   * A whole phrase read from a clean state: `do()` enables, `don't()`
   * disables, and `mul(A,B)` adds `A * B` exactly when enabled.
   */
  lemma ScanPhrase(r: Scanner, p: string)
    requires r.pending == [] && IsPhrase(p)
    ensures ScanFrom(r, p).pending == []
    ensures ScanFrom(r, p).enabled == (if p == DoText then true else if p == DontText then false else r.enabled)
    ensures ScanFrom(r, p).total == (if IsMul(p) && r.enabled then r.total + FirstArg(p) * SecondArg(p) else r.total)
  {
    var u := p[..|p| - 1];
    assert IsProperPrefix(u);
    ScanAlongPrefix(r, u);
    LastSplit(p);
  }

  /**
   * A character that breaks off a beginning of a phrase is dropped with it:
   * the state is as before the beginning, and the character does not start a
   * phrase of its own.
   */
  lemma ScanDeadEnd(r: Scanner, v: string, cur: Cursor)
    requires r.pending == [] && |v| >= 1 && Reached(v[..|v| - 1], cur)
    requires !IsPhrase(v) && !IsProperPrefix(v)
    ensures ScanFrom(r, v) == r
  {
    var w := v[..|v| - 1];
    ReachedIsProperPrefix(w, cur);
    ScanAlongPrefix(r, w);
    LastSplit(v);
  }

  /** Characters other than `m` and `d` read from a clean state change nothing. */
  lemma {:induction false} ScanJunk(r: Scanner, s: string)
    requires r.pending == [] && 'm' !in s && 'd' !in s
    ensures ScanFrom(r, s) == r
    decreases |s|
  {
    if s != [] {
      var u := s[..|s| - 1];
      var c := s[|s| - 1];
      assert s == u + [c];
      ScanJunk(r, u);
      assert [] + [c] == [c];
      if IsProperPrefix([c]) {
        ProperPrefixIsReached([c]);
        var cur :| Reached([c], cur);
        ReachedStart([c], cur);
      }
    }
  }

  /** A text no cursor reaches begins no phrase. */
  lemma NeverReached(v: string)
    requires forall next :: !Reached(v, next)
    ensures !IsProperPrefix(v)
  {
    if IsProperPrefix(v) {
      ProperPrefixIsReached(v);
    }
  }

  /** `do()` read from a clean state enables `mul`. */
  lemma ScanDo(r: Scanner)
    requires r.pending == []
    ensures ScanFrom(r, DoText) == Scanner([], true, r.total)
  {
    ScanPhrase(r, DoText);
  }

  /** `don't()` read from a clean state disables `mul`. */
  lemma ScanDont(r: Scanner)
    requires r.pending == []
    ensures ScanFrom(r, DontText) == Scanner([], false, r.total)
  {
    ScanPhrase(r, DontText);
  }

  /**
   * A piece of an input: characters none of which starts a phrase, a whole
   * phrase, or a beginning of a phrase broken off by its last character
   * (`before` is where the cursor stands just before that character).
   */
  datatype Piece = Junk(text: string) | Whole(text: string) | BrokenOff(text: string, before: Cursor)

  function Concat(ps: seq<Piece>): string {
    if ps == [] then [] else ps[0].text + Concat(ps[1..])
  }

  /** The text of two runs of pieces is the text of the first, then that of the second. */
  lemma {:induction false} ConcatAppend(a: seq<Piece>, b: seq<Piece>)
    ensures Concat(a + b) == Concat(a) + Concat(b)
    decreases |a|
  {
    if a == [] {
      assert a + b == b;
    } else {
      assert (a + b)[1..] == a[1..] + b;
      ConcatAppend(a[1..], b);
    }
  }

  ghost predicate PieceOk(p: Piece) {
    match p
    case Junk(s) => 'm' !in s && 'd' !in s
    case Whole(s) => IsPhrase(s)
    case BrokenOff(s, cur) =>
      |s| >= 1 && Reached(s[..|s| - 1], cur) && !IsPhrase(s) && !IsProperPrefix(s)
  }

  ghost predicate PiecesOk(ps: seq<Piece>) {
    ps == [] || (PieceOk(ps[0]) && PiecesOk(ps[1..]))
  }

  /**
   * What a piece does, with `mul` enabled or not before it: whether `mul`
   * is enabled after it, and what it adds.
   */
  function PieceEffect(p: Piece, enabled: bool): (bool, int) {
    match p
    case Whole(s) =>
      if s == DoText then (true, 0)
      else if s == DontText then (false, 0)
      else if IsMul(s) && enabled then (enabled, FirstArg(s) * SecondArg(s))
      else (enabled, 0)
    case _ => (enabled, 0)
  }

  /** What the pieces `ps` do together, in order. */
  function Net(ps: seq<Piece>, enabled: bool): (bool, int) {
    if ps == [] then (enabled, 0)
    else
      var first := PieceEffect(ps[0], enabled);
      var rest := Net(ps[1..], first.0);
      (rest.0, first.1 + rest.1)
  }

  /** Reading one piece from a clean state has the effect `PieceEffect` gives it. */
  lemma ScanPiece(r: Scanner, p: Piece)
    requires r.pending == [] && PieceOk(p)
    ensures ScanFrom(r, p.text) == Scanner([], PieceEffect(p, r.enabled).0, r.total + PieceEffect(p, r.enabled).1)
  {
    match p
    case Junk(s) => ScanJunk(r, s);
    case Whole(s) => ScanPhrase(r, s);
    case BrokenOff(s, cur) => ScanDeadEnd(r, s, cur);
  }

  /**
   * Reading an input made of such pieces has the effect of its phrases alone:
   * characters around them and broken-off beginnings change nothing.
   */
  lemma {:induction false} ScanPieces(r: Scanner, ps: seq<Piece>)
    requires r.pending == [] && PiecesOk(ps)
    ensures ScanFrom(r, Concat(ps)) == Scanner([], Net(ps, r.enabled).0, r.total + Net(ps, r.enabled).1)
    decreases |ps|
  {
    if ps != [] {
      ScanFromAppend(r, ps[0].text, Concat(ps[1..]));
      ScanPiece(r, ps[0]);
      ScanPieces(ScanFrom(r, ps[0].text), ps[1..]);
    }
  }

  lemma {:induction false} PiecesOkAppend(a: seq<Piece>, b: seq<Piece>)
    requires PiecesOk(a) && PiecesOk(b)
    ensures PiecesOk(a + b)
    decreases |a|
  {
    if a == [] {
      assert a + b == b;
    } else {
      assert (a + b)[1..] == a[1..] + b;
      PiecesOkAppend(a[1..], b);
    }
  }

  /** The effect of two runs of pieces is the second's after the first's. */
  lemma {:induction false} NetAppend(a: seq<Piece>, b: seq<Piece>, enabled: bool)
    ensures Net(a + b, enabled).0 == Net(b, Net(a, enabled).0).0
    ensures Net(a + b, enabled).1 == Net(a, enabled).1 + Net(b, Net(a, enabled).0).1
    decreases |a|
  {
    if a == [] {
      assert a + b == b;
    } else {
      assert (a + b)[1..] == a[1..] + b;
      NetAppend(a[1..], b, PieceEffect(a[0], enabled).0);
    }
  }
}
