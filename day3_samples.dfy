/**
 * Day 3 on sample inputs: `mmul(2,3)`, and the two inputs of the puzzle
 * statement, cut into pieces whose effect `ScanPieces` gives. The pieces of
 * each sample are checked a few at a time.
 */
module Day3Samples {
  import opened CharConv
  import opened Day3Automaton
  import opened Day3Phrases
  import opened Day3Reference
  import opened Day3Driver

  /** A `mul` whose arguments are `x` and `y` is a piece that adds `x * y` when enabled. */
  lemma MulPiece(w: string, a: nat, x: nat, y: nat)
    requires IsMulWith(w, a) && ValueBetween(w, 4, 4 + a) == x && ValueBetween(w, 5 + a, |w| - 1) == y
    ensures PieceOk(Whole(w))
    ensures PieceEffect(Whole(w), true) == (true, x * y) && PieceEffect(Whole(w), false) == (false, 0)
  {
    MulSplitUnique(w, a, FirstArgLength(w));
  }

  /** A text no cursor reaches, one character after a text some cursor reaches, is broken off. */
  lemma BrokenPiece(v: string, cur: Cursor)
    requires |v| >= 1 && Reached(v[..|v| - 1], cur) && v[|v| - 1] != ')'
    requires forall next :: !Reached(v, next)
    ensures PieceOk(BrokenOff(v, cur))
  {
    if IsPhrase(v) {
      PhraseEndsWithParen(v);
    }
    NeverReached(v);
  }

  /** Two pieces in a row: each must be well formed, and their effects follow one another. */
  lemma PairOk(p: Piece, q: Piece, enabled: bool)
    requires PieceOk(p) && PieceOk(q)
    ensures PiecesOk([p, q])
    ensures var first := PieceEffect(p, enabled); var second := PieceEffect(q, first.0);
      Net([p, q], enabled) == (second.0, first.1 + second.1)
  {
    assert [p, q][1..] == [q] && [q][1..] == [];
    var first := PieceEffect(p, enabled);
    assert Net([q], first.0) == (PieceEffect(q, first.0).0, PieceEffect(q, first.0).1);
  }

  /** `mmul(2,3)`: the second `m` breaks off the first, and is dropped with it. */
  const DoubledLetter: seq<Piece> := [BrokenOff("mm", Cursor(1, 1)), Junk("ul(2,3)")]

  lemma DoubledLetterPieces()
    ensures PiecesOk(DoubledLetter) && Concat(DoubledLetter) == "mmul(2,3)"
    ensures Net(DoubledLetter, true) == (true, 0) && Net(DoubledLetter, false) == (false, 0)
  {
    BrokenPiece("mm", Cursor(1, 1));
  }

  /** A rejected character is not tried again from the root: `mmul(2,3)` adds nothing. */
  lemma ScanDoubledLetter(start: Scanner)
    requires start.pending == []
    ensures ScanFrom(start, "mmul(2,3)") == start
  {
    DoubledLetterPieces();
    ScanPieces(start, DoubledLetter);
  }

  /**
   * The first sample, `xmul(2,4)%&mul[3,7]!@^do_not_mul(5,5)+mul(32,64]then(mul(11,8)mul(8,5))`,
   * in pieces: `mul(2,4)`, `mul(5,5)`, `mul(11,8)` and `mul(8,5)` count, and
   * `mul[`, `do_` and `mul(32,64]` are broken off; it adds 161.
   */
  const AllEnabledA: seq<Piece> := [Junk("x"), Whole("mul(2,4)")]
  const AllEnabledB: seq<Piece> := [Junk("%&"), BrokenOff("mul[", Cursor(3, 1))]
  const AllEnabledC: seq<Piece> := [Junk("3,7]!@^"), BrokenOff("do_", Cursor(10, 1))]
  const AllEnabledD: seq<Piece> := [Junk("not_"), Whole("mul(5,5)")]
  const AllEnabledE: seq<Piece> := [Junk("+"), BrokenOff("mul(32,64]", Cursor(7, 2))]
  const AllEnabledF: seq<Piece> := [Junk("then("), Whole("mul(11,8)")]
  const AllEnabledG: seq<Piece> := [Whole("mul(8,5)"), Junk(")")]
  const AllEnabled: seq<Piece> := AllEnabledA + AllEnabledB + AllEnabledC + AllEnabledD + AllEnabledE + AllEnabledF + AllEnabledG

  /** Two pieces spell their two texts. */
  lemma ConcatPair(p: Piece, q: Piece)
    ensures Concat([p, q]) == p.text + q.text
  {
    assert [p, q][1..] == [q];
    assert [q][1..] == [];
    assert Concat([q]) == q.text + [] == q.text;
  }

  /** The pieces spell the first sample. */
  lemma AllEnabledText()
    ensures Concat(AllEnabled)
      == ("x" + "mul(2,4)") + ("%&" + "mul[") + ("3,7]!@^" + "do_") + ("not_" + "mul(5,5)")
        + ("+" + "mul(32,64]") + ("then(" + "mul(11,8)") + ("mul(8,5)" + ")")
  {
    ConcatPair(AllEnabledA[0], AllEnabledA[1]);
    ConcatPair(AllEnabledB[0], AllEnabledB[1]);
    ConcatPair(AllEnabledC[0], AllEnabledC[1]);
    ConcatPair(AllEnabledD[0], AllEnabledD[1]);
    ConcatPair(AllEnabledE[0], AllEnabledE[1]);
    ConcatPair(AllEnabledF[0], AllEnabledF[1]);
    ConcatPair(AllEnabledG[0], AllEnabledG[1]);
    ConcatAppend(AllEnabledA, AllEnabledB);
    ConcatAppend(AllEnabledA + AllEnabledB, AllEnabledC);
    ConcatAppend(AllEnabledA + AllEnabledB + AllEnabledC, AllEnabledD);
    ConcatAppend(AllEnabledA + AllEnabledB + AllEnabledC + AllEnabledD, AllEnabledE);
    ConcatAppend(AllEnabledA + AllEnabledB + AllEnabledC + AllEnabledD + AllEnabledE, AllEnabledF);
    ConcatAppend(AllEnabledA + AllEnabledB + AllEnabledC + AllEnabledD + AllEnabledE + AllEnabledF, AllEnabledG);
  }

  lemma AllEnabledPartA()
    ensures PiecesOk(AllEnabledA) && Net(AllEnabledA, true) == (true, 8)
  {
    MulPiece("mul(2,4)", 1, 2, 4);
  }

  lemma AllEnabledPartB()
    ensures PiecesOk(AllEnabledB) && Net(AllEnabledB, true) == (true, 0)
  {
    BrokenPiece("mul[", Cursor(3, 1));
  }

  lemma AllEnabledPartC()
    ensures PiecesOk(AllEnabledC) && Net(AllEnabledC, true) == (true, 0)
  {
    BrokenPiece("do_", Cursor(10, 1));
  }

  lemma AllEnabledPartD()
    ensures PiecesOk(AllEnabledD) && Net(AllEnabledD, true) == (true, 25)
  {
    MulPiece("mul(5,5)", 1, 5, 5);
    PairOk(Junk("not_"), Whole("mul(5,5)"), true);
  }

  lemma AllEnabledPartE()
    ensures PiecesOk(AllEnabledE) && Net(AllEnabledE, true) == (true, 0)
  {
    BrokenPiece("mul(32,64]", Cursor(7, 2));
  }

  lemma AllEnabledPartF()
    ensures PiecesOk(AllEnabledF) && Net(AllEnabledF, true) == (true, 88)
  {
    MulPiece("mul(11,8)", 2, 11, 8);
    PairOk(Junk("then("), Whole("mul(11,8)"), true);
  }

  lemma AllEnabledPartG()
    ensures PiecesOk(AllEnabledG) && Net(AllEnabledG, true) == (true, 40)
  {
    MulPiece("mul(8,5)", 1, 8, 5);
  }

  lemma ScanAllEnabled(start: Scanner)
    requires start.pending == [] && start.enabled
    ensures ScanFrom(start, Concat(AllEnabled)).total == start.total + 161
  {
    AllEnabledPartA();
    AllEnabledPartB();
    AllEnabledPartC();
    AllEnabledPartD();
    AllEnabledPartE();
    AllEnabledPartF();
    AllEnabledPartG();
    PiecesOkAppend(AllEnabledA, AllEnabledB);
    NetAppend(AllEnabledA, AllEnabledB, true);
    PiecesOkAppend(AllEnabledA + AllEnabledB, AllEnabledC);
    NetAppend(AllEnabledA + AllEnabledB, AllEnabledC, true);
    PiecesOkAppend(AllEnabledA + AllEnabledB + AllEnabledC, AllEnabledD);
    NetAppend(AllEnabledA + AllEnabledB + AllEnabledC, AllEnabledD, true);
    PiecesOkAppend(AllEnabledA + AllEnabledB + AllEnabledC + AllEnabledD, AllEnabledE);
    NetAppend(AllEnabledA + AllEnabledB + AllEnabledC + AllEnabledD, AllEnabledE, true);
    PiecesOkAppend(AllEnabledA + AllEnabledB + AllEnabledC + AllEnabledD + AllEnabledE, AllEnabledF);
    NetAppend(AllEnabledA + AllEnabledB + AllEnabledC + AllEnabledD + AllEnabledE, AllEnabledF, true);
    PiecesOkAppend(AllEnabledA + AllEnabledB + AllEnabledC + AllEnabledD + AllEnabledE + AllEnabledF, AllEnabledG);
    NetAppend(AllEnabledA + AllEnabledB + AllEnabledC + AllEnabledD + AllEnabledE + AllEnabledF, AllEnabledG, true);
    ScanPieces(start, AllEnabled);
  }

  /**
   * The second sample, `xmul(2,4)&mul[3,7]!^don't()_mul(5,5)+mul(32,64](mul(11,8)undo()?mul(8,5))`,
   * in pieces: `don't()` disables `mul(5,5)` and `mul(11,8)`, and `do()`
   * enables `mul(8,5)` again; it adds 48.
   */
  const ToggledA: seq<Piece> := [Junk("x"), Whole("mul(2,4)")]
  const ToggledB: seq<Piece> := [Junk("&"), BrokenOff("mul[", Cursor(3, 1))]
  const ToggledC: seq<Piece> := [Junk("3,7]!^"), Whole("don't()")]
  const ToggledD: seq<Piece> := [Junk("_"), Whole("mul(5,5)")]
  const ToggledE: seq<Piece> := [Junk("+"), BrokenOff("mul(32,64]", Cursor(7, 2))]
  const ToggledF: seq<Piece> := [Junk("("), Whole("mul(11,8)")]
  const ToggledG: seq<Piece> := [Junk("un"), Whole("do()")]
  const ToggledH: seq<Piece> := [Junk("?"), Whole("mul(8,5)")]
  const ToggledI: seq<Piece> := [Junk(")")]
  const Toggled: seq<Piece> := ToggledA + ToggledB + ToggledC + ToggledD + ToggledE + ToggledF + ToggledG + ToggledH + ToggledI

  /** The pieces spell the second sample. */
  lemma ToggledText()
    ensures Concat(Toggled)
      == ("x" + "mul(2,4)") + ("&" + "mul[") + ("3,7]!^" + "don't()") + ("_" + "mul(5,5)")
        + ("+" + "mul(32,64]") + ("(" + "mul(11,8)") + ("un" + "do()") + ("?" + "mul(8,5)") + ")"
  {
    ConcatPair(ToggledA[0], ToggledA[1]);
    ConcatPair(ToggledB[0], ToggledB[1]);
    ConcatPair(ToggledC[0], ToggledC[1]);
    ConcatPair(ToggledD[0], ToggledD[1]);
    ConcatPair(ToggledE[0], ToggledE[1]);
    ConcatPair(ToggledF[0], ToggledF[1]);
    ConcatPair(ToggledG[0], ToggledG[1]);
    ConcatPair(ToggledH[0], ToggledH[1]);
    assert ToggledI[1..] == [];
    assert Concat(ToggledI) == ")" + [] == ")";
    ConcatAppend(ToggledA, ToggledB);
    ConcatAppend(ToggledA + ToggledB, ToggledC);
    ConcatAppend(ToggledA + ToggledB + ToggledC, ToggledD);
    ConcatAppend(ToggledA + ToggledB + ToggledC + ToggledD, ToggledE);
    ConcatAppend(ToggledA + ToggledB + ToggledC + ToggledD + ToggledE, ToggledF);
    ConcatAppend(ToggledA + ToggledB + ToggledC + ToggledD + ToggledE + ToggledF, ToggledG);
    ConcatAppend(ToggledA + ToggledB + ToggledC + ToggledD + ToggledE + ToggledF + ToggledG, ToggledH);
    ConcatAppend(ToggledA + ToggledB + ToggledC + ToggledD + ToggledE + ToggledF + ToggledG + ToggledH, ToggledI);
  }

  lemma ToggledPartA()
    ensures PiecesOk(ToggledA) && Net(ToggledA, true) == (true, 8)
  {
    MulPiece("mul(2,4)", 1, 2, 4);
  }

  lemma ToggledPartB()
    ensures PiecesOk(ToggledB) && Net(ToggledB, true) == (true, 0)
  {
    BrokenPiece("mul[", Cursor(3, 1));
  }

  lemma ToggledPartC()
    ensures PiecesOk(ToggledC) && Net(ToggledC, true) == (false, 0)
  {
  }

  lemma ToggledPartD()
    ensures PiecesOk(ToggledD) && Net(ToggledD, false) == (false, 0)
  {
    MulPiece("mul(5,5)", 1, 5, 5);
  }

  lemma ToggledPartE()
    ensures PiecesOk(ToggledE) && Net(ToggledE, false) == (false, 0)
  {
    BrokenPiece("mul(32,64]", Cursor(7, 2));
  }

  lemma ToggledPartF()
    ensures PiecesOk(ToggledF) && Net(ToggledF, false) == (false, 0)
  {
    MulPiece("mul(11,8)", 2, 11, 8);
  }

  lemma ToggledPartG()
    ensures PiecesOk(ToggledG) && Net(ToggledG, false) == (true, 0)
  {
  }

  lemma ToggledPartH()
    ensures PiecesOk(ToggledH) && Net(ToggledH, true) == (true, 40)
  {
    MulPiece("mul(8,5)", 1, 8, 5);
  }

  lemma ToggledPartI()
    ensures PiecesOk(ToggledI) && Net(ToggledI, true) == (true, 0)
  {
  }

  lemma ScanToggled(start: Scanner)
    requires start.pending == [] && start.enabled
    ensures ScanFrom(start, Concat(Toggled)).total == start.total + 48
  {
    ToggledPartA();
    ToggledPartB();
    ToggledPartC();
    ToggledPartD();
    ToggledPartE();
    ToggledPartF();
    ToggledPartG();
    ToggledPartH();
    ToggledPartI();
    PiecesOkAppend(ToggledA, ToggledB);
    NetAppend(ToggledA, ToggledB, true);
    PiecesOkAppend(ToggledA + ToggledB, ToggledC);
    NetAppend(ToggledA + ToggledB, ToggledC, true);
    PiecesOkAppend(ToggledA + ToggledB + ToggledC, ToggledD);
    NetAppend(ToggledA + ToggledB + ToggledC, ToggledD, true);
    PiecesOkAppend(ToggledA + ToggledB + ToggledC + ToggledD, ToggledE);
    NetAppend(ToggledA + ToggledB + ToggledC + ToggledD, ToggledE, true);
    PiecesOkAppend(ToggledA + ToggledB + ToggledC + ToggledD + ToggledE, ToggledF);
    NetAppend(ToggledA + ToggledB + ToggledC + ToggledD + ToggledE, ToggledF, true);
    PiecesOkAppend(ToggledA + ToggledB + ToggledC + ToggledD + ToggledE + ToggledF, ToggledG);
    NetAppend(ToggledA + ToggledB + ToggledC + ToggledD + ToggledE + ToggledF, ToggledG, true);
    PiecesOkAppend(ToggledA + ToggledB + ToggledC + ToggledD + ToggledE + ToggledF + ToggledG, ToggledH);
    NetAppend(ToggledA + ToggledB + ToggledC + ToggledD + ToggledE + ToggledF + ToggledG, ToggledH, true);
    PiecesOkAppend(ToggledA + ToggledB + ToggledC + ToggledD + ToggledE + ToggledF + ToggledG + ToggledH, ToggledI);
    NetAppend(ToggledA + ToggledB + ToggledC + ToggledD + ToggledE + ToggledF + ToggledG + ToggledH, ToggledI, true);
    ScanPieces(start, Toggled);
  }

  /** The loop of `main` on the three samples. */
  method RunSamples() returns (doubled: int, allEnabled: int, toggled: int)
    ensures doubled == 0 && allEnabled == 161 && toggled == 48
  {
    ScanDoubledLetter(Fresh);
    ScanAllEnabled(Fresh);
    ScanToggled(Fresh);
    AllEnabledText();
    ToggledText();
    doubled := RunDriver("mmul(2,3)");
    allEnabled := RunDriver(
      ("x" + "mul(2,4)") + ("%&" + "mul[") + ("3,7]!@^" + "do_") + ("not_" + "mul(5,5)")
      + ("+" + "mul(32,64]") + ("then(" + "mul(11,8)") + ("mul(8,5)" + ")"));
    toggled := RunDriver(
      ("x" + "mul(2,4)") + ("&" + "mul[") + ("3,7]!^" + "don't()") + ("_" + "mul(5,5)")
      + ("+" + "mul(32,64]") + ("(" + "mul(11,8)") + ("un" + "do()") + ("?" + "mul(8,5)") + ")");
  }
}
