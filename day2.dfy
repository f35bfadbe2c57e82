/**
 * Day 2: a report is a line of levels; it is safe when the levels all rise or
 * all fall, by 1 to 3 at each step, and safe with tolerance when removing a
 * single level makes it safe. The program counts both kinds over its input.
 */
module Day2 {
  import opened Wrappers
  import opened CharConv

  // ---------------------------------------------------------------------------
  // Safety of a report, stated without a chosen direction
  // ---------------------------------------------------------------------------

  /** A step from `a` to `b` that rises by at least 1 and at most 3. */
  predicate StepUp(a: int, b: int) {
    1 <= b - a <= 3
  }

  /** Every adjacent step rises by at least 1 and at most 3. */
  predicate Increasing(v: seq<int>) {
    forall k :: 0 <= k < |v| - 1 ==> StepUp(v[k], v[k + 1])
  }

  /** Every adjacent step falls by at least 1 and at most 3. */
  predicate Decreasing(v: seq<int>) {
    forall k :: 0 <= k < |v| - 1 ==> StepUp(v[k + 1], v[k])
  }

  predicate IsSafe(v: seq<int>) {
    Increasing(v) || Decreasing(v)
  }

  /** `copy.erase(copy.begin() + i)` on a copy of the report. */
  function RemoveAt(v: seq<int>, i: nat): (r: seq<int>)
    requires i < |v|
    ensures |r| == |v| - 1
    ensures forall k :: 0 <= k < |r| ==> r[k] == if k < i then v[k] else v[k + 1]
  {
    v[..i] + v[i + 1..]
  }

  predicate Tolerant(v: seq<int>) {
    exists i :: 0 <= i < |v| && IsSafe(RemoveAt(v, i))
  }

  // ---------------------------------------------------------------------------
  // isSafeReport
  // ---------------------------------------------------------------------------

  /**
   * The scan of `isSafeReport`: the direction is fixed by the first pair (a
   * level equal to its predecessor counts as "decreasing"), and the scan stops
   * at the first step out of range. The two flags only choose what is logged,
   * so the result does not depend on them.
   */
  method IsSafeReport(values: seq<int>, inLog: bool, inLogError: bool) returns (safeReport: bool)
    ensures safeReport == IsSafe(values)
  {
    safeReport := true;
    var i := 0;
    var increasing := false;
    var previousValue := 0;
    while i < |values|
      invariant 0 <= i <= |values|
      invariant i >= 1 ==> previousValue == values[i - 1]
      invariant i >= 2 ==> increasing == (values[1] > values[0])
      invariant i >= 2 && increasing ==> forall k :: 0 <= k < i - 1 ==> StepUp(values[k], values[k + 1])
      invariant i >= 2 && !increasing ==> forall k :: 0 <= k < i - 1 ==> StepUp(values[k + 1], values[k])
    {
      var value := values[i];
      i := i + 1;
      if i == 1 {
        previousValue := value;
        continue;
      }
      if i == 2 {
        increasing := value > previousValue;
      }
      var diff := if increasing then value - previousValue else previousValue - value;
      if diff < 1 || diff > 3 {
        safeReport := false;
        BadStepIsUnsafe(values, i - 2, increasing);
        break;
      }
      previousValue := value;
    }
  }

  /**
   * A step out of range in the direction of the first pair makes the report
   * unsafe: the other direction already fails at the first pair.
   */
  lemma BadStepIsUnsafe(v: seq<int>, k: nat, increasing: bool)
    requires k + 1 < |v| && increasing == (v[1] > v[0])
    requires increasing ==> !StepUp(v[k], v[k + 1])
    requires !increasing ==> !StepUp(v[k + 1], v[k])
    ensures !IsSafe(v)
  {
    assert !StepUp(v[1], v[0]) || !StepUp(v[0], v[1]);
  }

  /** The first pair decides which direction a safe report must keep. */
  lemma FirstPairFixesDirection(v: seq<int>)
    requires |v| >= 2
    ensures IsSafe(v) <==> if v[1] > v[0] then Increasing(v) else Decreasing(v)
    ensures v[0] == v[1] ==> !IsSafe(v)
  {
  }

  // ---------------------------------------------------------------------------
  // isSafeReportWithTolerance
  // ---------------------------------------------------------------------------

  /**
   * Tries the removal of each index in ascending order on a fresh copy and
   * stops at the first that gives a safe report; an empty report is never
   * tolerated, as no index can be removed.
   */
  method IsSafeReportWithTolerance(values: seq<int>) returns (tolerant: bool)
    ensures tolerant == Tolerant(values)
    ensures values == [] ==> !tolerant
  {
    var i := 0;
    while i < |values|
      invariant 0 <= i <= |values|
      invariant forall k :: 0 <= k < i ==> !IsSafe(RemoveAt(values, k))
    {
      var copy := RemoveAt(values, i);
      var safe := IsSafeReport(copy, false, false);
      if safe {
        return true;
      }
      i := i + 1;
    }
    return false;
  }

  /** Removing the first level of a safe report leaves it safe. */
  lemma SafeIsTolerant(v: seq<int>)
    requires |v| > 0 && IsSafe(v)
    ensures Tolerant(v)
  {
    var rest := RemoveAt(v, 0);
    assert forall k :: 0 <= k < |rest| ==> rest[k] == v[k + 1];
    if Increasing(v) {
      forall k | 0 <= k < |rest| - 1 ensures StepUp(rest[k], rest[k + 1]) {
        assert StepUp(v[k + 1], v[k + 2]);
      }
    } else {
      forall k | 0 <= k < |rest| - 1 ensures StepUp(rest[k + 1], rest[k]) {
        assert StepUp(v[k + 2], v[k + 1]);
      }
    }
    assert IsSafe(RemoveAt(v, 0));
  }

  // ---------------------------------------------------------------------------
  // toString
  // ---------------------------------------------------------------------------

  /** One value as printed, in brackets when it is the one to point at. */
  function Item(value: int, wrapped: bool): string {
    if wrapped then "[" + IntToString(value) + "]" else IntToString(value)
  }

  /** The first `n` values printed one after the other, a single space between two. */
  function RenderFirst(values: seq<int>, wrapIndex: int, n: nat): string
    requires n <= |values|
  {
    if n == 0 then ""
    else RenderFirst(values, wrapIndex, n - 1) + (if n > 1 then " " else "") + Item(values[n - 1], wrapIndex == n - 1)
  }

  function Render(values: seq<int>, wrapIndex: int): string {
    RenderFirst(values, wrapIndex, |values|)
  }

  /** The printed form of each of the first `n` values, in order. */
  function ItemsFirst(values: seq<int>, wrapIndex: int, n: nat): (r: seq<string>)
    requires n <= |values|
    ensures |r| == n
  {
    if n == 0 then []
    else ItemsFirst(values, wrapIndex, n - 1) + [Item(values[n - 1], wrapIndex == n - 1)]
  }

  /** One more value: a space when it is not the first, then the value as printed. */
  lemma RenderFirstStep(values: seq<int>, wrapIndex: int, i: nat)
    requires i < |values|
    ensures RenderFirst(values, wrapIndex, i + 1)
      == RenderFirst(values, wrapIndex, i) + (if i > 0 then " " else "") + Item(values[i], wrapIndex == i)
  {
  }

  /** A proof step for `AppendValue`: regrouping the pushes of one bracketed value. */
  lemma Associative(a: string, b: string, c: string)
    ensures a + b + c == a + (b + c)
  {
  }

  /** The pushes of one value, in brackets when `wrapped`. */
  method AppendValue(result: string, value: int, wrapped: bool) returns (r: string)
    ensures r == result + Item(value, wrapped)
  {
    r := result;
    if wrapped {
      r := r + "[";
    }
    r := r + IntToString(value);
    if wrapped {
      r := r + "]";
      Associative(result, "[" + IntToString(value), "]");
      Associative(result, "[", IntToString(value));
    }
  }

  /** `toString`: appends each value, its brackets and a separating space. */
  method ToString(values: seq<int>, wrapIndex: int) returns (result: string)
    ensures result == Render(values, wrapIndex)
  {
    result := "";
    var i := 0;
    var e := |values|;
    while i < e
      invariant 0 <= i <= e
      invariant result == RenderFirst(values, wrapIndex, i) + (if 0 < i < e then " " else "")
    {
      RenderFirstStep(values, wrapIndex, i);
      result := AppendValue(result, values[i], wrapIndex == i);
      if i + 1 < e {
        result := result + " ";
      }
      i := i + 1;
    }
  }

  // ---------------------------------------------------------------------------
  // Reading a report: std::views::split on ' ', then std::from_chars
  // ---------------------------------------------------------------------------

  predicate NoSpace(s: string) {
    forall k :: 0 <= k < |s| ==> s[k] != ' '
  }

  /** No space in `s` before index `j`. */
  predicate NoSpaceBefore(s: string, j: nat)
    requires j <= |s|
  {
    forall k :: 0 <= k < j ==> s[k] != ' '
  }

  /** The index of the first space of `s`, or `|s|` when there is none. */
  function SpaceIndex(s: string): (i: nat)
    ensures i <= |s| && (i < |s| ==> s[i] == ' ')
  {
    if s == [] || s[0] == ' ' then 0
    else 1 + SpaceIndex(s[1..])
  }

  /** No space comes before the first one. */
  lemma {:induction false} SpaceIndexNoSpaceBefore(s: string)
    ensures NoSpaceBefore(s, SpaceIndex(s))
    decreases |s|
  {
    if s != [] && s[0] != ' ' {
      SpaceIndexNoSpaceBefore(s[1..]);
      forall k | 0 <= k < SpaceIndex(s)
        ensures s[k] != ' '
      {
        if k > 0 {
          assert s[k] == s[1..][k - 1];
        }
      }
    }
  }

  /** The pieces of a non-empty line between its spaces: k spaces give k + 1 pieces. */
  function Pieces(s: string): (r: seq<string>)
    ensures |r| >= 1
    decreases |s|
  {
    var i := SpaceIndex(s);
    if i == |s| then [s] else [s[..i]] + Pieces(s[i + 1..])
  }

  /** No piece holds a space. */
  lemma {:induction false} PiecesHaveNoSpace(s: string)
    ensures forall k :: 0 <= k < |Pieces(s)| ==> NoSpace(Pieces(s)[k])
    decreases |s|
  {
    var i := SpaceIndex(s);
    SpaceIndexNoSpaceBefore(s);
    if i < |s| {
      var t := s[i + 1..];
      PiecesHaveNoSpace(t);
      assert Pieces(s) == [s[..i]] + Pieces(t);
    }
  }

  /** Pieces joined back together, a single space between two. */
  function Join(pieces: seq<string>): string {
    if pieces == [] then ""
    else if |pieces| == 1 then pieces[0]
    else pieces[0] + " " + Join(pieces[1..])
  }

  /** Joining the pieces of a line gives the line back. */
  lemma {:induction false} JoinPieces(s: string)
    ensures Join(Pieces(s)) == s
    decreases |s|
  {
    var i := SpaceIndex(s);
    if i == |s| {
      assert Pieces(s) == [s];
    } else {
      var t := s[i + 1..];
      JoinPieces(t);
      JoinCons(s[..i], Pieces(t));
      assert s == s[..i] + [s[i]] + t;
    }
  }

  lemma JoinCons(a: string, pieces: seq<string>)
    requires pieces != []
    ensures Join([a] + pieces) == a + " " + Join(pieces)
  {
    assert ([a] + pieces)[1..] == pieces;
  }

  /** Splitting pieces joined by single spaces gives the pieces back. */
  lemma {:induction false} PiecesOfJoin(pieces: seq<string>)
    requires |pieces| >= 1 && forall k :: 0 <= k < |pieces| ==> NoSpace(pieces[k])
    ensures Pieces(Join(pieces)) == pieces
    decreases |pieces|
  {
    if |pieces| == 1 {
      PiecesOfNoSpace(pieces[0]);
    } else {
      var rest := pieces[1..];
      assert Join(pieces) == pieces[0] + " " + Join(rest);
      PiecesOfJoin(rest);
      PiecesAppend(pieces[0], Join(rest));
      PiecesOfNoSpace(pieces[0]);
      assert pieces == [pieces[0]] + rest;
    }
  }

  /**
   * `std::views::split(line, ' ')`: an empty line has no piece at all; any
   * other line is cut at every space, and its pieces joined by single spaces
   * give it back.
   */
  function SplitOnSpace(line: string): (pieces: seq<string>)
    ensures pieces == [] <==> line == []
    ensures forall k :: 0 <= k < |pieces| ==> NoSpace(pieces[k])
    ensures Join(pieces) == line
  {
    if line == [] then []
    else
      JoinPieces(line);
      PiecesHaveNoSpace(line);
      Pieces(line)
  }

  /**
   * The parse lambda: a piece that `std::from_chars` rejects becomes -1, so
   * the level is always an `int`, and it is -1 when the piece does not start
   * with a digit or with '-' and a digit.
   */
  function ParseLevel(piece: string): (level: int)
    ensures IntMin <= level <= IntMax
    ensures !(|piece| > 0 && (IsDigit(piece[0]) || (piece[0] == '-' && |piece| > 1 && IsDigit(piece[1])))) ==> level == -1
  {
    match FromChars(piece, 0, |piece|)
    case Some(v) => v
    case None => -1
  }

  function ParseLevels(pieces: seq<string>): (values: seq<int>)
    ensures |values| == |pieces|
  {
    if pieces == [] then []
    else ParseLevels(pieces[..|pieces| - 1]) + [ParseLevel(pieces[|pieces| - 1])]
  }

  /** One level per piece of the line, the failed ones included. */
  function ParseReport(line: string): (values: seq<int>)
    ensures |values| == |SplitOnSpace(line)|
  {
    ParseLevels(SplitOnSpace(line))
  }

  /** The first space is the one before which there is none. */
  lemma {:induction false} SpaceIndexIs(s: string, j: nat)
    requires j <= |s| && (j < |s| ==> s[j] == ' ') && NoSpaceBefore(s, j)
    ensures SpaceIndex(s) == j
  {
    if j > 0 {
      assert NoSpaceBefore(s[1..], j - 1) by {
        forall k | 0 <= k < j - 1
          ensures s[1..][k] != ' '
        {
          assert s[1..][k] == s[k + 1];
        }
      }
      SpaceIndexIs(s[1..], j - 1);
    }
  }

  lemma PiecesOfNoSpace(s: string)
    requires NoSpace(s)
    ensures Pieces(s) == [s]
  {
    assert s[..|s|] == s;
    SpaceIndexIs(s, |s|);
  }

  /** Splitting at a space splits the pieces. */
  lemma {:induction false} PiecesAppend(a: string, b: string)
    ensures Pieces(a + " " + b) == Pieces(a) + Pieces(b)
    decreases |a|
  {
    var s := a + " " + b;
    var i := SpaceIndex(a);
    SpaceIndexNoSpaceBefore(a);
    assert s[..i] == a[..i];
    SpaceIndexIs(s, i);
    if i == |a| {
      assert a[..i] == a;
      assert s[i + 1..] == b;
    } else {
      assert s[i + 1..] == a[i + 1..] + " " + b;
      PiecesAppend(a[i + 1..], b);
    }
  }

  lemma ItemHasNoSpace(value: int, wrapped: bool)
    ensures NoSpace(Item(value, wrapped)) && |Item(value, wrapped)| >= 1
  {
    var digits := NatToString(if value < 0 then -value else value);
    assert NoSpace(digits) by {
      forall k | 0 <= k < |digits| ensures digits[k] != ' ' {
        assert IsDigit(digits[k]);
      }
    }
  }

  /** The value at each position is printed in brackets exactly when it is the one pointed at. */
  lemma {:induction false} ItemsAt(values: seq<int>, wrapIndex: int, n: nat, i: nat)
    requires i < n <= |values|
    ensures ItemsFirst(values, wrapIndex, n)[i] == Item(values[i], wrapIndex == i)
  {
    var before := ItemsFirst(values, wrapIndex, n - 1);
    assert ItemsFirst(values, wrapIndex, n) == before + [Item(values[n - 1], wrapIndex == n - 1)];
    if i < n - 1 {
      ItemsAt(values, wrapIndex, n - 1, i);
      assert ItemsFirst(values, wrapIndex, n)[i] == before[i];
    }
  }

  /** The pieces of a rendering are the printed values, in order. */
  lemma {:induction false} RenderPieces(values: seq<int>, wrapIndex: int, n: nat)
    requires 0 < n <= |values|
    ensures Pieces(RenderFirst(values, wrapIndex, n)) == ItemsFirst(values, wrapIndex, n)
  {
    var last := Item(values[n - 1], wrapIndex == n - 1);
    ItemHasNoSpace(values[n - 1], wrapIndex == n - 1);
    PiecesOfNoSpace(last);
    if n == 1 {
      assert RenderFirst(values, wrapIndex, n) == last;
    } else {
      RenderPieces(values, wrapIndex, n - 1);
      PiecesAppend(RenderFirst(values, wrapIndex, n - 1), last);
    }
  }

  /** The printed report is empty exactly when there is no value. */
  lemma RenderEmpty(values: seq<int>, wrapIndex: int)
    ensures Render(values, wrapIndex) == [] <==> values == []
  {
    if values != [] {
      var n := |values| - 1;
      ItemHasNoSpace(values[n], wrapIndex == n);
    }
  }

  lemma {:induction false} ParseLevelsOfItems(values: seq<int>, n: nat)
    requires n <= |values|
    requires forall k :: 0 <= k < |values| ==> IntMin <= values[k] <= IntMax
    ensures ParseLevels(ItemsFirst(values, -1, n)) == values[..n]
  {
    if n > 0 {
      ParseLevelsOfItems(values, n - 1);
      FromCharsOfToString(values[n - 1]);
      assert ItemsFirst(values, -1, n)[..n - 1] == ItemsFirst(values, -1, n - 1);
      assert values[..n] == values[..n - 1] + [values[n - 1]];
    }
  }

  /**
   * `toString` and the line parser are inverse: the levels printed without
   * brackets read back as the same levels.
   */
  lemma ParseRendered(values: seq<int>)
    requires forall k :: 0 <= k < |values| ==> IntMin <= values[k] <= IntMax
    ensures ParseReport(Render(values, -1)) == values
  {
    RenderEmpty(values, -1);
    if values != [] {
      RenderPieces(values, -1, |values|);
    }
    ParseLevelsOfItems(values, |values|);
    assert values[..|values|] == values;
  }

  /**
   * The pieces of `toString`'s output are the values in order, the one at
   * `wrapIndex` alone in brackets; with `wrapIndex` -1 none is.
   */
  lemma RenderIsJoin(values: seq<int>, wrapIndex: int)
    requires values != []
    ensures |Pieces(Render(values, wrapIndex))| == |values|
    ensures forall i :: 0 <= i < |values| ==>
      Pieces(Render(values, wrapIndex))[i] == if i == wrapIndex then "[" + IntToString(values[i]) + "]" else IntToString(values[i])
  {
    RenderPieces(values, wrapIndex, |values|);
    forall i | 0 <= i < |values|
      ensures Pieces(Render(values, wrapIndex))[i] == Item(values[i], wrapIndex == i)
    {
      ItemsAt(values, wrapIndex, |values|, i);
    }
  }

  /** The first and last pieces of a line start and end it. */
  lemma {:induction false} PiecesEdges(s: string)
    ensures |s| > 0 && Pieces(s)[0] != [] ==> s[0] != ' '
    ensures |s| > 0 && Pieces(s)[|Pieces(s)| - 1] != [] ==> s[|s| - 1] != ' '
    decreases |s|
  {
    var i := SpaceIndex(s);
    SpaceIndexNoSpaceBefore(s);
    if i < |s| {
      var t := s[i + 1..];
      PiecesEdges(t);
      assert Pieces(s) == [s[..i]] + Pieces(t);
      assert Pieces(s)[|Pieces(s)| - 1] == Pieces(t)[|Pieces(t)| - 1];
      assert t != [] ==> s[|s| - 1] == t[|t| - 1];
    }
  }

  /** No leading or trailing space. */
  lemma RenderEdges(values: seq<int>, wrapIndex: int)
    requires values != []
    ensures Render(values, wrapIndex)[0] != ' '
    ensures Render(values, wrapIndex)[|Render(values, wrapIndex)| - 1] != ' '
  {
    var n := |values|;
    RenderEmpty(values, wrapIndex);
    RenderPieces(values, wrapIndex, n);
    ItemsAt(values, wrapIndex, n, 0);
    ItemsAt(values, wrapIndex, n, n - 1);
    ItemHasNoSpace(values[0], wrapIndex == 0);
    ItemHasNoSpace(values[n - 1], wrapIndex == n - 1);
    PiecesEdges(Render(values, wrapIndex));
  }

  // ---------------------------------------------------------------------------
  // The counting of main
  // ---------------------------------------------------------------------------

  /** The report on each line of the input, in order. */
  function Reports(lines: seq<string>): seq<seq<int>>
  {
    seq(|lines|, k requires 0 <= k < |lines| => ParseReport(lines[k]))
  }

  /** How many of the reports are safe. */
  function SafeCount(reports: seq<seq<int>>): nat {
    if reports == [] then 0
    else SafeCount(reports[..|reports| - 1]) + (if IsSafe(reports[|reports| - 1]) then 1 else 0)
  }

  /** How many of the reports are safe or tolerated. */
  function ToleratedCount(reports: seq<seq<int>>): nat {
    if reports == [] then 0
    else
      var report := reports[|reports| - 1];
      ToleratedCount(reports[..|reports| - 1]) + (if IsSafe(report) || Tolerant(report) then 1 else 0)
  }

  /** How many of the reports are tolerated. */
  function TolerantCount(reports: seq<seq<int>>): nat {
    if reports == [] then 0
    else TolerantCount(reports[..|reports| - 1]) + (if Tolerant(reports[|reports| - 1]) then 1 else 0)
  }

  /**
   * The loop of `main` over the lines of the input: a safe report is counted
   * in both totals, the others in the second total when tolerated.
   */
  method CountSafeReports(lines: seq<string>) returns (safeReports: nat, safeReportsWithTolerance: nat)
    ensures safeReports == SafeCount(Reports(lines))
    ensures safeReportsWithTolerance == ToleratedCount(Reports(lines))
    ensures safeReports <= safeReportsWithTolerance
  {
    ghost var reports := Reports(lines);
    safeReports, safeReportsWithTolerance := 0, 0;
    var k := 0;
    while k < |lines|
      invariant 0 <= k <= |lines|
      invariant safeReports == SafeCount(reports[..k])
      invariant safeReportsWithTolerance == ToleratedCount(reports[..k])
      invariant safeReports <= safeReportsWithTolerance
    {
      var values := ParseReport(lines[k]);
      CountsStep(reports, k);
      var safe := IsSafeReport(values, true, false);
      if safe {
        safeReports := safeReports + 1;
        safeReportsWithTolerance := safeReportsWithTolerance + 1;
      } else {
        var tolerant := IsSafeReportWithTolerance(values);
        if tolerant {
          safeReportsWithTolerance := safeReportsWithTolerance + 1;
        }
      }
      k := k + 1;
    }
    assert reports[..k] == reports;
  }

  /** Counting one more report adds its verdicts to the totals. */
  lemma CountsStep(reports: seq<seq<int>>, k: nat)
    requires k < |reports|
    ensures SafeCount(reports[..k + 1]) == SafeCount(reports[..k]) + (if IsSafe(reports[k]) then 1 else 0)
    ensures ToleratedCount(reports[..k + 1])
         == ToleratedCount(reports[..k]) + (if IsSafe(reports[k]) || Tolerant(reports[k]) then 1 else 0)
  {
    assert reports[..k + 1][..k] == reports[..k];
  }

  /**
   * On reports that are not empty, counting safe reports in the second total
   * too gives the number of tolerated reports: a non-empty safe report is
   * tolerated. An empty report (from an empty line) is safe but not tolerated.
   */
  lemma {:induction false} ToleratedCountOfNonEmptyReports(reports: seq<seq<int>>)
    requires forall k :: 0 <= k < |reports| ==> reports[k] != []
    ensures ToleratedCount(reports) == TolerantCount(reports)
  {
    if reports != [] {
      var report := reports[|reports| - 1];
      if IsSafe(report) {
        SafeIsTolerant(report);
      }
      ToleratedCountOfNonEmptyReports(reports[..|reports| - 1]);
    }
  }

  /** A line that is not empty holds a report that is not empty. */
  lemma NonEmptyLineHasLevels(line: string)
    requires line != []
    ensures ParseReport(line) != []
  {
  }
}
