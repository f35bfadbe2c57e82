/**
 * Day 1: each line of the input holds two integers; the first ones form a
 * left list and the second ones a right list. Both lists are sorted, then the
 * program prints the sum of the distances between the pairs at equal ranks and
 * a similarity score: each left value times the number of its occurrences in
 * the right list.
 */
module Day1 {
  import opened Wrappers
  import opened CharConv

  // ---------------------------------------------------------------------------
  // The two-field line tokenizer
  // ---------------------------------------------------------------------------

  /**
   * The first index at or after `i` that does not hold a space. A search that
   * starts one past the end of the line stays there.
   */
  function SkipSpaces(line: string, i: nat): (j: nat)
    requires i <= |line| + 1
    ensures i <= j <= |line| + 1 && (j == i || j <= |line|)
    decreases |line| + 1 - i
  {
    if i < |line| && line[i] == ' ' then SkipSpaces(line, i + 1) else i
  }

  /** The end of the longest run of non-space characters that starts at `i`. */
  function TokenEnd(line: string, i: nat): (j: nat)
    requires i <= |line| + 1
    ensures i <= j <= |line| + 1 && (j == i || j <= |line|)
    decreases |line| + 1 - i
  {
    if i < |line| && line[i] != ' ' then TokenEnd(line, i + 1) else i
  }

  /** `SkipSpaces` passes over spaces only and stops at a non-space or the end. */
  lemma {:induction false} SkipSpacesStops(line: string, i: nat)
    requires i <= |line| + 1
    ensures forall k :: i <= k < SkipSpaces(line, i) ==> line[k] == ' '
    ensures SkipSpaces(line, i) < |line| ==> line[SkipSpaces(line, i)] != ' '
    decreases |line| + 1 - i
  {
    if i < |line| && line[i] == ' ' {
      SkipSpacesStops(line, i + 1);
    }
  }

  /** `TokenEnd` passes over non-spaces only and stops at a space or the end. */
  lemma {:induction false} TokenEndStops(line: string, i: nat)
    requires i <= |line| + 1
    ensures forall k :: i <= k < TokenEnd(line, i) ==> line[k] != ' '
    ensures TokenEnd(line, i) < |line| ==> line[TokenEnd(line, i)] == ' '
    decreases |line| + 1 - i
  {
    if i < |line| && line[i] != ' ' {
      TokenEndStops(line, i + 1);
    }
  }

  /** The end of the field that starts after the spaces at `from`. */
  function FieldEnd(line: string, from: nat): (end: nat)
    requires from <= |line| + 1
    ensures from <= end <= |line| + 1 && (from <= |line| ==> end <= |line|)
  {
    TokenEnd(line, SkipSpaces(line, from))
  }

  /**
   * One field read from index `from` on: skip spaces, take the longest run of
   * non-spaces and parse it with `std::from_chars`. A search that starts one
   * past the end of the line gives an empty range there, which holds no digit.
   */
  function Field(line: string, from: nat): (r: Option<int>)
    requires from <= |line| + 1
  {
    var start := SkipSpaces(line, from);
    var end := TokenEnd(line, start);
    if end <= |line| then FromChars(line, start, end) else None
  }

  /**
   * The two fields of a line: the search for the second starts one past the
   * end of the first. Either field failing to parse fails the line.
   */
  function LineFields(line: string): Option<(int, int)> {
    var first := Field(line, 0);
    if first.None? then None
    else
      var second := Field(line, FieldEnd(line, 0) + 1);
      if second.None? then None else Some((first.value, second.value))
  }

  /**
   * One of the two scoped blocks of `main`: the two `while` loops that find
   * the field, then `std::from_chars` on it; also the index one past the
   * field, where the search for the next field starts.
   */
  method ReadField(line: string, from: nat) returns (value: Option<int>, next: nat)
    requires from <= |line| + 1
    ensures value == Field(line, from) && next == FieldEnd(line, from) + 1
  {
    var start := from;
    while start < |line| && line[start] == ' '
      invariant from <= start <= |line| + 1
      invariant SkipSpaces(line, start) == SkipSpaces(line, from)
    {
      start := start + 1;
    }
    var end := start;
    while end < |line| && line[end] != ' '
      invariant start <= end <= |line| + 1
      invariant TokenEnd(line, end) == TokenEnd(line, start)
    {
      end := end + 1;
    }
    value := if end <= |line| then FromChars(line, start, end) else None;
    next := end + 1;
  }

  /** Reading `first` and `second` from one line, as `main` does. */
  method ParseLine(line: string) returns (r: Option<(int, int)>)
    ensures r == LineFields(line)
  {
    var first, startSecond := ReadField(line, 0);
    if first.None? {
      return None;
    }
    var second, _ := ReadField(line, startSecond);
    if second.None? {
      return None;
    }
    r := Some((first.value, second.value));
  }

  predicate AllSpaces(s: string) {
    forall k :: 0 <= k < |s| ==> s[k] == ' '
  }

  /** `SkipSpaces` stops at the first non-space. */
  lemma {:induction false} SkipSpacesIs(line: string, i: nat, j: nat)
    requires i <= j <= |line|
    requires forall k :: i <= k < j ==> line[k] == ' '
    requires j < |line| ==> line[j] != ' '
    ensures SkipSpaces(line, i) == j
    decreases j - i
  {
    if i < j {
      SkipSpacesIs(line, i + 1, j);
    }
  }

  /** `TokenEnd` stops at the first space. */
  lemma {:induction false} TokenEndIs(line: string, i: nat, j: nat)
    requires i <= j <= |line|
    requires forall k :: i <= k < j ==> line[k] != ' '
    requires j < |line| ==> line[j] == ' '
    ensures TokenEnd(line, i) == j
    decreases j - i
  {
    if i < j {
      TokenEndIs(line, i + 1, j);
    }
  }

  /** A token is a non-empty run of characters that are not spaces. */
  predicate IsToken(token: string) {
    token != [] && forall k :: 0 <= k < |token| ==> token[k] != ' '
  }

  /**
   * A token that sits at `start` in the line, after spaces from `from` on and
   * before the end of the line or a space, is the field read from `from`,
   * and that field ends right after it. Its value is what `std::from_chars`
   * reads from the token alone.
   */
  lemma FieldOfToken(line: string, from: nat, start: nat, token: string)
    requires IsToken(token) && from <= start && start + |token| <= |line|
    requires forall k :: from <= k < start ==> line[k] == ' '
    requires Agree(token, 0, |token|, line, start)
    requires start + |token| < |line| ==> line[start + |token|] == ' '
    ensures Field(line, from) == FromChars(token, 0, |token|)
    ensures FieldEnd(line, from) == start + |token|
  {
    var end := start + |token|;
    assert forall k :: start <= k < end ==> line[k] == token[k - start];
    SkipSpacesIs(line, from, start);
    TokenEndIs(line, start, end);
    FromCharsSame(token, 0, |token|, line, start);
  }

  /**
   * A line laid out as spaces, a token, at least one space, a token and
   * spaces reads as the values `std::from_chars` reads from the two tokens;
   * it fails exactly when one of them fails.
   */
  lemma LineFieldsOfLayout(line: string, lead: nat, first: string, gap: nat, second: string)
    requires IsToken(first) && IsToken(second) && gap >= 1
    requires lead + |first| + gap + |second| <= |line|
    requires forall k :: 0 <= k < lead ==> line[k] == ' '
    requires Agree(first, 0, |first|, line, lead)
    requires forall k :: lead + |first| <= k < lead + |first| + gap ==> line[k] == ' '
    requires Agree(second, 0, |second|, line, lead + |first| + gap)
    requires forall k :: lead + |first| + gap + |second| <= k < |line| ==> line[k] == ' '
    ensures var parsed1, parsed2 := FromChars(first, 0, |first|), FromChars(second, 0, |second|);
      LineFields(line) == if parsed1.Some? && parsed2.Some? then Some((parsed1.value, parsed2.value)) else None
  {
    FieldOfToken(line, 0, lead, first);
    SecondFieldOfLayout(line, lead + |first|, gap, second);
    LineFieldsOfFields(line, FromChars(first, 0, |first|), FromChars(second, 0, |second|));
  }

  /** The fields of a line, given the values read for its first and second field. */
  lemma LineFieldsOfFields(line: string, parsed1: Option<int>, parsed2: Option<int>)
    requires Field(line, 0) == parsed1 && Field(line, FieldEnd(line, 0) + 1) == parsed2
    ensures LineFields(line) == if parsed1.Some? && parsed2.Some? then Some((parsed1.value, parsed2.value)) else None
  {
  }

  /** The second field is read from one past the end of the first, inside the gap. */
  lemma SecondFieldOfLayout(line: string, end1: nat, gap: nat, second: string)
    requires IsToken(second) && gap >= 1 && end1 + gap + |second| <= |line|
    requires forall k :: end1 <= k < end1 + gap ==> line[k] == ' '
    requires Agree(second, 0, |second|, line, end1 + gap)
    requires forall k :: end1 + gap + |second| <= k < |line| ==> line[k] == ' '
    ensures Field(line, end1 + 1) == FromChars(second, 0, |second|)
  {
    FieldOfToken(line, end1 + 1, end1 + gap, second);
  }

  /**
   * A line made of two tokens separated by at least one space, with any
   * spaces before and after them, reads as the values `std::from_chars` reads
   * from the two tokens; it fails exactly when one of them fails.
   */
  lemma LineFieldsOfTokens(lead: string, first: string, gap: string, second: string, trail: string)
    requires AllSpaces(lead) && AllSpaces(gap) && AllSpaces(trail) && gap != []
    requires IsToken(first) && IsToken(second)
    ensures var parsed1, parsed2 := FromChars(first, 0, |first|), FromChars(second, 0, |second|);
      LineFields(lead + first + gap + second + trail)
      == if parsed1.Some? && parsed2.Some? then Some((parsed1.value, parsed2.value)) else None
  {
    var line := lead + first + gap + second + trail;
    var end1 := |lead| + |first|;
    var start2 := end1 + |gap|;
    var end2 := start2 + |second|;
    assert forall k :: 0 <= k < |lead| ==> line[k] == lead[k];
    assert forall k :: |lead| <= k < end1 ==> line[k] == first[k - |lead|];
    assert forall k :: end1 <= k < start2 ==> line[k] == gap[k - end1];
    assert forall k :: start2 <= k < end2 ==> line[k] == second[k - start2];
    assert forall k :: end2 <= k < |line| ==> line[k] == trail[k - end2];
    LineFieldsOfLayout(line, |lead|, first, |gap|, second);
  }

  /**
   * A line printed as two integers separated by at least one space, with any
   * spaces before and after them, reads back as those two integers.
   */
  lemma LineFieldsOfPrinted(a: int, b: int, lead: string, gap: string, trail: string)
    requires IntMin <= a <= IntMax && IntMin <= b <= IntMax
    requires AllSpaces(lead) && AllSpaces(gap) && AllSpaces(trail) && gap != []
    ensures LineFields(lead + IntToString(a) + gap + IntToString(b) + trail) == Some((a, b))
  {
    PrintedIsToken(a);
    PrintedIsToken(b);
    FromCharsOfToString(a);
    FromCharsOfToString(b);
    LineFieldsOfTokens(lead, IntToString(a), gap, IntToString(b), trail);
  }

  lemma PrintedIsToken(n: int)
    ensures IsToken(IntToString(n))
  {
    var digits := NatToString(if n < 0 then -n else n);
    assert forall k :: 0 <= k < |digits| ==> IsDigit(digits[k]);
  }

  // ---------------------------------------------------------------------------
  // Reading the two lists
  // ---------------------------------------------------------------------------

  /** The fields of every line of the input, in order. */
  function ParsedLines(lines: seq<string>): seq<Option<(int, int)>>
  {
    seq(|lines|, k requires 0 <= k < |lines| => LineFields(lines[k]))
  }

  /**
   * The two columns built from the fields of the lines, one value per line in
   * each; no columns when some line does not read as two integers.
   */
  function Columns(parsed: seq<Option<(int, int)>>): (r: Option<(seq<int>, seq<int>)>)
    ensures r.Some? ==> |r.value.0| == |parsed| && |r.value.1| == |parsed|
  {
    if parsed == [] then Some(([], []))
    else
      var n := |parsed| - 1;
      var prefix := Columns(parsed[..n]);
      if prefix.None? || parsed[n].None? then None
      else Some((prefix.value.0 + [parsed[n].value.0], prefix.value.1 + [parsed[n].value.1]))
  }

  /**
   * The columns exist exactly when every line reads as two integers, and the
   * values at rank `k` are the two fields of line `k`.
   */
  lemma {:induction false} ColumnsAreFields(parsed: seq<Option<(int, int)>>)
    ensures Columns(parsed).Some? <==> forall k :: 0 <= k < |parsed| ==> parsed[k].Some?
    ensures Columns(parsed).Some? ==> forall k :: 0 <= k < |parsed| ==>
      parsed[k] == Some((Columns(parsed).value.0[k], Columns(parsed).value.1[k]))
  {
    if parsed != [] {
      var n := |parsed| - 1;
      var prefix := parsed[..n];
      ColumnsAreFields(prefix);
      assert forall k :: 0 <= k < n ==> prefix[k] == parsed[k];
    }
  }

  /**
   * The `do`/`while` loop of `main` that fills both vectors with `push_back`;
   * the program stops with status 1 at the first line that does not parse.
   */
  method ReadLists(lines: seq<string>) returns (r: Option<(seq<int>, seq<int>)>)
    ensures r == Columns(ParsedLines(lines))
  {
    ghost var parsed := ParsedLines(lines);
    var list1: seq<int> := [];
    var list2: seq<int> := [];
    var k := 0;
    while k < |lines|
      invariant 0 <= k <= |lines|
      invariant Columns(parsed[..k]) == Some((list1, list2))
    {
      ColumnsStep(parsed, k);
      var fields := ParseLine(lines[k]);
      if fields.None? {
        ColumnsOfPrefix(parsed, k + 1);
        return None;
      }
      list1 := list1 + [fields.value.0];
      list2 := list2 + [fields.value.1];
      k := k + 1;
    }
    assert parsed[..k] == parsed;
    r := Some((list1, list2));
  }

  /** The columns of one more line are those of the lines before it, extended by its fields. */
  lemma ColumnsStep(parsed: seq<Option<(int, int)>>, k: nat)
    requires k < |parsed|
    ensures Columns(parsed[..k + 1]) ==
      if Columns(parsed[..k]).None? || parsed[k].None? then None
      else Some((Columns(parsed[..k]).value.0 + [parsed[k].value.0], Columns(parsed[..k]).value.1 + [parsed[k].value.1]))
  {
    assert parsed[..k + 1][..k] == parsed[..k];
  }

  /** A line that fails in a prefix fails the whole input. */
  lemma ColumnsOfPrefix(parsed: seq<Option<(int, int)>>, n: nat)
    requires n <= |parsed| && Columns(parsed[..n]).None?
    ensures Columns(parsed).None?
  {
    ColumnsAreFields(parsed[..n]);
    ColumnsAreFields(parsed);
    var k :| 0 <= k < n && parsed[..n][k].None?;
    assert parsed[k] == parsed[..n][k];
  }

  // ---------------------------------------------------------------------------
  // Sorting: std::sort, specified by its result
  // ---------------------------------------------------------------------------

  predicate Sorted(s: seq<int>) {
    forall i, j :: 0 <= i < j < |s| ==> s[i] <= s[j]
  }

  /** Insertion into a sorted sequence. */
  function Insert(x: int, s: seq<int>): (r: seq<int>)
    ensures |r| == |s| + 1
  {
    if s == [] || x <= s[0] then [x] + s else [s[0]] + Insert(x, s[1..])
  }

  /** The sorted rearrangement of `s`, as a reference for `std::sort`. */
  function SortedOf(s: seq<int>): (r: seq<int>)
    ensures |r| == |s|
  {
    if s == [] then [] else Insert(s[0], SortedOf(s[1..]))
  }

  /** Inserting a value no smaller than a bound keeps every element above it. */
  lemma {:induction false} InsertBounded(x: int, s: seq<int>, low: int)
    requires low <= x && forall k :: 0 <= k < |s| ==> low <= s[k]
    ensures forall k :: 0 <= k < |Insert(x, s)| ==> low <= Insert(x, s)[k]
  {
    if s != [] && x > s[0] {
      InsertBounded(x, s[1..], low);
    }
  }

  lemma {:induction false} InsertSorted(x: int, s: seq<int>)
    requires Sorted(s)
    ensures Sorted(Insert(x, s))
  {
    if s != [] && x > s[0] {
      InsertSorted(x, s[1..]);
      InsertBounded(x, s[1..], s[0]);
    }
  }

  lemma {:induction false} InsertPermutation(x: int, s: seq<int>)
    ensures multiset(Insert(x, s)) == multiset(s) + multiset{x}
  {
    if s != [] && x > s[0] {
      InsertPermutation(x, s[1..]);
      assert s == [s[0]] + s[1..];
    }
  }

  /** The reference sort gives a sorted rearrangement of its input. */
  lemma {:induction false} SortedOfIsSortedPermutation(s: seq<int>)
    ensures Sorted(SortedOf(s)) && multiset(SortedOf(s)) == multiset(s)
  {
    if s != [] {
      SortedOfIsSortedPermutation(s[1..]);
      InsertSorted(s[0], SortedOf(s[1..]));
      InsertPermutation(s[0], SortedOf(s[1..]));
      assert s == [s[0]] + s[1..];
    }
  }

  /** The first element of a sorted sequence is its smallest. */
  lemma SortedHeadIsMinimum(a: seq<int>, v: int)
    requires Sorted(a) && v in multiset(a)
    ensures a[0] <= v
  {
    var j :| 0 <= j < |a| && a[j] == v;
  }

  /** Two sorted sequences with the same elements start with the same element. */
  lemma SortedSameHead(a: seq<int>, b: seq<int>)
    requires Sorted(a) && Sorted(b) && multiset(a) == multiset(b) && a != []
    ensures b != [] && a[0] == b[0]
  {
    assert a[0] in multiset(b);
    assert b != [];
    assert b[0] in multiset(a);
    SortedHeadIsMinimum(a, b[0]);
    SortedHeadIsMinimum(b, a[0]);
  }

  /** Removing the same first element leaves the same elements behind. */
  lemma TailPermutation(a: seq<int>, b: seq<int>)
    requires a != [] && b != [] && a[0] == b[0] && multiset(a) == multiset(b)
    ensures multiset(a[1..]) == multiset(b[1..])
  {
    assert a == [a[0]] + a[1..];
    assert b == [b[0]] + b[1..];
    forall v ensures multiset(a[1..])[v] == multiset(b[1..])[v] {
      assert multiset(a)[v] == multiset{a[0]}[v] + multiset(a[1..])[v];
      assert multiset(b)[v] == multiset{a[0]}[v] + multiset(b[1..])[v];
    }
  }

  /** Two sorted sequences with the same elements are equal. */
  lemma {:induction false} SortedPermutationIsUnique(a: seq<int>, b: seq<int>)
    requires Sorted(a) && Sorted(b) && multiset(a) == multiset(b)
    ensures a == b
  {
    if a == [] {
      assert |b| == |multiset(b)| == 0;
    } else {
      SortedSameHead(a, b);
      TailPermutation(a, b);
      SortedPermutationIsUnique(a[1..], b[1..]);
      assert a == [a[0]] + a[1..] && b == [b[0]] + b[1..];
    }
  }

  /** Exchanges two elements of the vector. */
  method Swap(a: array<int>, i: nat, j: nat)
    requires i < a.Length && j < a.Length
    modifies a
    ensures a[..] == old(a[..])[i := old(a[j])][j := old(a[i])]
    ensures multiset(a[..]) == multiset(old(a[..]))
  {
    a[i], a[j] := a[j], a[i];
  }

  /** `std::sort` on a vector, written as an insertion sort that swaps neighbours. */
  method SortInPlace(a: array<int>)
    modifies a
    ensures Sorted(a[..])
    ensures multiset(a[..]) == multiset(old(a[..]))
  {
    var i := 0;
    while i < a.Length
      invariant 0 <= i <= a.Length
      invariant forall k, l :: 0 <= k < l < i ==> a[k] <= a[l]
      invariant multiset(a[..]) == multiset(old(a[..]))
    {
      var j := i;
      while j > 0 && a[j - 1] > a[j]
        invariant 0 <= j <= i
        invariant forall k, l :: 0 <= k < l <= i && k != j && l != j ==> a[k] <= a[l]
        invariant forall l :: j < l <= i ==> a[j] <= a[l]
        invariant multiset(a[..]) == multiset(old(a[..]))
      {
        Swap(a, j - 1, j);
        j := j - 1;
      }
      i := i + 1;
    }
  }

  // ---------------------------------------------------------------------------
  // Part 1: the sum of distances
  // ---------------------------------------------------------------------------

  function Distance(left: int, right: int): (d: nat)
    ensures d == left - right || d == right - left
  {
    if left > right then left - right else right - left
  }

  /** The distances between the values at equal ranks, added up. */
  function SumDist(list1: seq<int>, list2: seq<int>): int
    requires |list1| <= |list2|
  {
    if list1 == [] then 0
    else
      var n := |list1| - 1;
      SumDist(list1[..n], list2) + Distance(list1[n], list2[n])
  }

  /** The loop of part 1. */
  method SumDistances(list1: seq<int>, list2: seq<int>) returns (sumDistances: int)
    requires |list1| <= |list2|
    ensures sumDistances == SumDist(list1, list2)
  {
    sumDistances := 0;
    var i := 0;
    while i < |list1|
      invariant 0 <= i <= |list1|
      invariant sumDistances == SumDist(list1[..i], list2)
    {
      var left := list1[i];
      var right := list2[i];
      var distance := if left > right then left - right else right - left;
      assert list1[..i + 1][..i] == list1[..i];
      sumDistances := sumDistances + distance;
      i := i + 1;
    }
    assert list1[..i] == list1;
  }

  /** Every term is a distance, so the sum is never negative. */
  lemma {:induction false} SumDistNonNegative(list1: seq<int>, list2: seq<int>)
    requires |list1| <= |list2|
    ensures SumDist(list1, list2) >= 0
  {
    if list1 != [] {
      SumDistNonNegative(list1[..|list1| - 1], list2);
    }
  }

  /** Swapping the two lists does not change the sum. */
  lemma {:induction false} SumDistSymmetric(list1: seq<int>, list2: seq<int>)
    requires |list1| == |list2|
    ensures SumDist(list1, list2) == SumDist(list2, list1)
  {
    if list1 != [] {
      var n := |list1| - 1;
      SumDistPrefix(list1[..n], list2, list2[..n]);
      SumDistPrefix(list2[..n], list1, list1[..n]);
      SumDistSymmetric(list1[..n], list2[..n]);
    }
  }

  /** Only the first `|list1|` values of `list2` take part. */
  lemma {:induction false} SumDistPrefix(list1: seq<int>, list2: seq<int>, shorter: seq<int>)
    requires |list1| <= |shorter| <= |list2| && shorter == list2[..|shorter|]
    ensures SumDist(list1, list2) == SumDist(list1, shorter)
  {
    if list1 != [] {
      SumDistPrefix(list1[..|list1| - 1], list2, shorter);
    }
  }

  // ---------------------------------------------------------------------------
  // Part 2: the similarity score
  // ---------------------------------------------------------------------------

  /** Each value of `list1` times the number of its occurrences in `right`, added up. */
  function SimScore(list1: seq<int>, right: multiset<int>): int {
    if list1 == [] then 0
    else
      var n := |list1| - 1;
      SimScore(list1[..n], right) + list1[n] * right[list1[n]]
  }

  /** The number of occurrences of `x` in `s` between `lo` and `hi`. */
  function Count(s: seq<int>, x: int, lo: nat, hi: nat): nat
    requires lo <= hi <= |s|
    decreases hi - lo
  {
    if hi == lo then 0 else Count(s, x, lo, hi - 1) + (if s[hi - 1] == x then 1 else 0)
  }

  /** Counting by index agrees with the multiset of the range. */
  lemma {:induction false} CountIsMultiplicity(s: seq<int>, x: int, lo: nat, hi: nat)
    requires lo <= hi <= |s|
    ensures Count(s, x, lo, hi) == multiset(s[lo..hi])[x]
    decreases hi - lo
  {
    if hi > lo {
      CountIsMultiplicity(s, x, lo, hi - 1);
      assert s[lo..hi] == s[lo..hi - 1] + [s[hi - 1]];
    }
  }

  /**
   * The two-pointer scan of part 2 over sorted lists, with the bound tested
   * before `list2[rightIndex]` is read. `previousRightIndex` only moves
   * forward, and only when the next left value is strictly greater, so a
   * repeated left value scans the same run of equal right values again.
   */
  method SimilarityScore(list1: seq<int>, list2: seq<int>) returns (similarityScore: int)
    requires Sorted(list1) && Sorted(list2)
    ensures similarityScore == SimScore(list1, multiset(list2))
  {
    similarityScore := 0;
    var previousRightIndex := 0;
    var i := 0;
    while i < |list1|
      invariant 0 <= i <= |list1|
      invariant previousRightIndex <= |list2|
      invariant i < |list1| ==> forall j :: 0 <= j < previousRightIndex ==> list2[j] < list1[i]
      invariant similarityScore == SimScore(list1[..i], multiset(list2))
    {
      var left := list1[i];
      var rightIndex := previousRightIndex;
      ghost var before := similarityScore;
      ghost var matched := 0;
      while rightIndex < |list2|
        invariant previousRightIndex <= rightIndex <= |list2|
        invariant forall j :: 0 <= j < rightIndex ==> list2[j] <= left
        invariant matched == Count(list2, left, previousRightIndex, rightIndex)
        invariant similarityScore == before + left * matched
      {
        var right := list2[rightIndex];
        if right < left {
          rightIndex := rightIndex + 1;
        } else if right == left {
          rightIndex := rightIndex + 1;
          similarityScore := similarityScore + left;
          MulSucc(left, matched);
          matched := matched + 1;
        } else {
          break;
        }
      }
      CountInScannedRun(list2, left, previousRightIndex, rightIndex);
      SimScoreStep(list1, i, multiset(list2));
      NextLeftAbove(list1, i);
      if i + 1 < |list1| && list1[i + 1] > left {
        previousRightIndex := rightIndex;
      }
      i := i + 1;
    }
    assert list1[..i] == list1;
  }

  /** A proof step for the similarity loops: one more match adds one more `a`. */
  lemma MulSucc(a: int, n: int)
    ensures a * (n + 1) == a * n + a
  {
  }

  lemma SimScoreStep(list1: seq<int>, i: nat, right: multiset<int>)
    requires i < |list1|
    ensures SimScore(list1[..i + 1], right) == SimScore(list1[..i], right) + list1[i] * right[list1[i]]
  {
    assert list1[..i + 1][..i] == list1[..i];
  }

  /** In a sorted list the next value is either the same or greater. */
  lemma NextLeftAbove(list1: seq<int>, i: nat)
    requires Sorted(list1) && i < |list1|
    ensures i + 1 < |list1| ==> list1[i] <= list1[i + 1]
  {
  }

  /**
   * In a sorted list, when everything before `from` is smaller than `x` and
   * everything from `to` on is larger, all occurrences of `x` lie in between.
   */
  lemma CountInScannedRun(s: seq<int>, x: int, from: nat, to: nat)
    requires Sorted(s) && from <= to <= |s|
    requires forall j :: 0 <= j < from ==> s[j] < x
    requires to < |s| ==> s[to] > x
    ensures multiset(s)[x] == Count(s, x, from, to)
  {
    CountIsMultiplicity(s, x, from, to);
    SplitInThree(s, from, to);
    Absent(s[..from], x);
    AbsentAfter(s, x, to);
  }

  lemma SplitInThree(s: seq<int>, from: nat, to: nat)
    requires from <= to <= |s|
    ensures multiset(s) == multiset(s[..from]) + multiset(s[from..to]) + multiset(s[to..])
  {
    assert s == s[..from] + s[from..to] + s[to..];
  }

  /** In a sorted list, a value smaller than the one at `to` is absent from `to` on. */
  lemma AbsentAfter(s: seq<int>, x: int, to: nat)
    requires Sorted(s) && to <= |s|
    requires to < |s| ==> s[to] > x
    ensures multiset(s[to..])[x] == 0
  {
    var after := s[to..];
    forall j | 0 <= j < |after| ensures after[j] != x {
      assert after[j] == s[to + j] && s[to] <= s[to + j];
    }
    Absent(after, x);
  }

  /** A value at no index of `t` has multiplicity zero in it. */
  lemma Absent(t: seq<int>, x: int)
    requires forall j :: 0 <= j < |t| ==> t[j] != x
    ensures multiset(t)[x] == 0
  {
    assert x !in t;
  }

  /**
   * Sums over `list1` do not depend on its order: the similarity score of a
   * rearrangement of `list1` is the same.
   */
  lemma {:induction false} SimScorePermutation(a: seq<int>, b: seq<int>, right: multiset<int>)
    requires multiset(a) == multiset(b)
    ensures SimScore(a, right) == SimScore(b, right)
    decreases |a|
  {
    if a == [] {
      assert |b| == |multiset(b)| == 0;
    } else {
      var n := |a| - 1;
      var x := a[n];
      assert a == a[..n] + [x];
      assert x in multiset(b);
      var j :| 0 <= j < |b| && b[j] == x;
      var rest := b[..j] + b[j + 1..];
      SimScoreRemove(b, j, right);
      RemoveOne(b, j);
      assert multiset(a) == multiset(a[..n]) + multiset{x};
      assert multiset(a[..n]) == multiset(rest) by {
        forall v ensures multiset(a[..n])[v] == multiset(rest)[v] {
          assert multiset(a)[v] == multiset(a[..n])[v] + multiset{x}[v];
          assert multiset(b)[v] == multiset(rest)[v] + multiset{x}[v];
        }
      }
      SimScorePermutation(a[..n], rest, right);
    }
  }

  /** Taking the value at `j` out of `b` takes one occurrence out of its elements. */
  lemma RemoveOne(b: seq<int>, j: nat)
    requires j < |b|
    ensures multiset(b) == multiset(b[..j] + b[j + 1..]) + multiset{b[j]}
  {
    assert b == b[..j] + [b[j]] + b[j + 1..];
  }

  /** Taking one value out of `list1` takes its term out of the score. */
  lemma {:induction false} SimScoreRemove(b: seq<int>, j: nat, right: multiset<int>)
    requires j < |b|
    ensures SimScore(b, right) == SimScore(b[..j] + b[j + 1..], right) + b[j] * right[b[j]]
    decreases |b|
  {
    var n := |b| - 1;
    var rest := b[..j] + b[j + 1..];
    if j == n {
      assert rest == b[..n];
    } else {
      var shorter := b[..n];
      SimScoreRemove(shorter, j, right);
      assert rest[..|rest| - 1] == shorter[..j] + shorter[j + 1..];
      assert rest[|rest| - 1] == b[n];
    }
  }

  /**
   * The inner `do`/`while` of part 2 as written: `list2[rightIndex]` is read
   * before the bound is tested, so entering it with `rightIndex` at the end
   * of `list2` reads past the end (`None`). Otherwise it gives the index where
   * it stopped, at or before the end, and the score it reached.
   */
  function ScanAsWritten(list2: seq<int>, left: int, rightIndex: nat, score: int): (r: Option<(nat, int)>)
    requires rightIndex <= |list2|
    ensures r.None? <==> rightIndex == |list2|
    ensures r.Some? ==> rightIndex <= r.value.0 <= |list2|
    decreases |list2| - rightIndex
  {
    if rightIndex == |list2| then None
    else
      var right := list2[rightIndex];
      if right > left then Some((rightIndex, score))
      else
        var next := if right == left then score + left else score;
        if rightIndex + 1 < |list2| then ScanAsWritten(list2, left, rightIndex + 1, next)
        else Some((rightIndex + 1, next))
  }

  /**
   * A scan entered before the end stops at the first value above `left` or
   * at the end; every value it passed is at most `left`, and each of them
   * equal to `left` added `left` to the score.
   */
  lemma {:induction false} ScanAsWrittenStops(list2: seq<int>, left: int, rightIndex: nat, score: int)
    requires rightIndex < |list2|
    ensures var r := ScanAsWritten(list2, left, rightIndex, score).value;
      (forall j :: rightIndex <= j < r.0 ==> list2[j] <= left)
      && (r.0 < |list2| ==> list2[r.0] > left)
      && r.1 == score + left * multiset(list2[rightIndex..r.0])[left]
    decreases |list2| - rightIndex
  {
    var right := list2[rightIndex];
    if right > left {
      NoMatches(list2, left, rightIndex);
    } else {
      var next := if right == left then score + left else score;
      if rightIndex + 1 < |list2| {
        ScanAsWrittenStops(list2, left, rightIndex + 1, next);
        ScanStep(list2, left, rightIndex, ScanAsWritten(list2, left, rightIndex + 1, next).value.0);
      } else {
        ScanStep(list2, left, rightIndex, rightIndex + 1);
        NoMatches(list2, left, rightIndex + 1);
      }
    }
  }

  lemma NoMatches(list2: seq<int>, left: int, at: nat)
    requires at <= |list2|
    ensures left * multiset(list2[at..at])[left] == 0
  {
    assert list2[at..at] == [];
  }

  /** The matches from `from` on: the first value's, then the rest's. */
  lemma ScanStep(list2: seq<int>, left: int, from: nat, to: nat)
    requires from < to <= |list2|
    ensures left * multiset(list2[from..to])[left]
      == (if list2[from] == left then left else 0) + left * multiset(list2[from + 1..to])[left]
  {
    assert list2[from..to] == [list2[from]] + list2[from + 1..to];
    var m := multiset(list2[from + 1..to])[left];
    if list2[from] == left {
      MulSucc(left, m);
    }
  }

  /** The outer `for` loop of part 2 as written, from rank `i` on. */
  function OuterAsWritten(list1: seq<int>, list2: seq<int>, i: nat, previousRightIndex: nat, score: int): Option<int>
    requires i <= |list1| && previousRightIndex <= |list2|
    decreases |list1| - i
  {
    if i == |list1| then Some(score)
    else
      var left := list1[i];
      var scan := ScanAsWritten(list2, left, previousRightIndex, score);
      if scan.None? then None
      else
        var next := if i + 1 < |list1| && list1[i + 1] > left then scan.value.0 else previousRightIndex;
        OuterAsWritten(list1, list2, i + 1, next, scan.value.1)
  }

  /** Part 2 as written; `None` when it reads past the end of `list2`. */
  function SimilarityAsWritten(list1: seq<int>, list2: seq<int>): Option<int> {
    OuterAsWritten(list1, list2, 0, 0, 0)
  }

  /**
   * Some left value before rank `i` is at least the last right value and is
   * followed by a strictly greater left value: its scan consumes all of
   * `list2` and hands the end of `list2` on to the next rank.
   */
  predicate ExhaustedBefore(list1: seq<int>, list2: seq<int>, i: nat) {
    list2 != [] && exists k :: 0 <= k && k + 1 <= i && k + 1 < |list1| && list2[|list2| - 1] <= list1[k] < list1[k + 1]
  }

  /** When part 2 as written reads past the end of `list2`, on sorted lists. */
  predicate ReadsPastEnd(list1: seq<int>, list2: seq<int>) {
    list1 != [] && (list2 == [] || ExhaustedBefore(list1, list2, |list1|))
  }

  /**
   * On sorted lists, the outer loop as written, entered at rank `i` with
   * everything before `previousRightIndex` below the left value, reads past
   * the end exactly in the cases `ReadsPastEnd` names, and otherwise gives
   * the similarity score.
   */
  lemma {:induction false} OuterAsWrittenIs(list1: seq<int>, list2: seq<int>, i: nat, previousRightIndex: nat, score: int)
    requires Sorted(list1) && Sorted(list2) && i <= |list1| && previousRightIndex <= |list2|
    requires score == SimScore(list1[..i], multiset(list2))
    requires i < |list1| ==> forall j :: 0 <= j < previousRightIndex ==> list2[j] < list1[i]
    requires i < |list1| ==> (previousRightIndex == |list2| <==> list2 == [] || ExhaustedBefore(list1, list2, i))
    requires 0 < i ==> list2 != [] && !ExhaustedBefore(list1, list2, i - 1)
    ensures OuterAsWritten(list1, list2, i, previousRightIndex, score)
      == if ReadsPastEnd(list1, list2) then None else Some(SimScore(list1, multiset(list2)))
    decreases |list1| - i
  {
    if i == |list1| {
      assert list1[..i] == list1;
      if list1 != [] {
        ExhaustedAtEnd(list1, list2);
      }
    } else if previousRightIndex == |list2| {
      if list2 != [] {
        ExhaustedGrows(list1, list2, i, |list1|);
      }
    } else {
      var left := list1[i];
      var scan := ScanAsWritten(list2, left, previousRightIndex, score);
      ScoreAsWrittenStep(list1, list2, i, previousRightIndex, score);
      var next := if i + 1 < |list1| && list1[i + 1] > left then scan.value.0 else previousRightIndex;
      if i + 1 < |list1| {
        ScanAsWrittenStops(list2, left, previousRightIndex, score);
        IndexAsWrittenStep(list1, list2, i, previousRightIndex, scan.value.0);
      }
      OuterAsWrittenIs(list1, list2, i + 1, next, scan.value.1);
    }
  }

  /** A scan from past every smaller right value adds the left value's whole share. */
  lemma ScoreAsWrittenStep(list1: seq<int>, list2: seq<int>, i: nat, from: nat, score: int)
    requires Sorted(list2) && i < |list1| && from < |list2|
    requires score == SimScore(list1[..i], multiset(list2))
    requires forall j :: 0 <= j < from ==> list2[j] < list1[i]
    ensures ScanAsWritten(list2, list1[i], from, score).Some?
    ensures ScanAsWritten(list2, list1[i], from, score).value.1 == SimScore(list1[..i + 1], multiset(list2))
  {
    var to := ScanAsWritten(list2, list1[i], from, score).value.0;
    ScanAsWrittenStops(list2, list1[i], from, score);
    CountInScannedRun(list2, list1[i], from, to);
    CountIsMultiplicity(list2, list1[i], from, to);
    SimScoreStep(list1, i, multiset(list2));
  }

  /**
   * Where the next rank's scan starts: past every right value below the next
   * left value, and at the end of `list2` exactly when rank `i` is a witness.
   */
  lemma IndexAsWrittenStep(list1: seq<int>, list2: seq<int>, i: nat, from: nat, to: nat)
    requires Sorted(list1) && Sorted(list2) && i + 1 < |list1| && from < |list2| && from <= to <= |list2|
    requires forall j :: 0 <= j < from ==> list2[j] < list1[i]
    requires forall j :: from <= j < to ==> list2[j] <= list1[i]
    requires to < |list2| ==> list2[to] > list1[i]
    requires !ExhaustedBefore(list1, list2, i)
    ensures var next := if list1[i + 1] > list1[i] then to else from;
      (forall j :: 0 <= j < next ==> list2[j] < list1[i + 1])
      && (next == |list2| <==> ExhaustedBefore(list1, list2, i + 1))
  {
    NextLeftAbove(list1, i);
    ExhaustedStep(list1, list2, i);
    LastAtMost(list2, list1[i], from, to);
  }

  /** At the last rank, being exhausted before it is being exhausted before the end. */
  lemma ExhaustedAtEnd(list1: seq<int>, list2: seq<int>)
    requires list1 != []
    ensures ExhaustedBefore(list1, list2, |list1|) == ExhaustedBefore(list1, list2, |list1| - 1)
  {
  }

  /** A witness before rank `i` is a witness before any later rank. */
  lemma ExhaustedGrows(list1: seq<int>, list2: seq<int>, i: nat, i': nat)
    requires i <= i' && ExhaustedBefore(list1, list2, i)
    ensures ExhaustedBefore(list1, list2, i')
  {
    var k :| 0 <= k && k + 1 <= i && k + 1 < |list1| && list2[|list2| - 1] <= list1[k] < list1[k + 1];
  }

  /** One more rank adds one candidate witness: rank `i` itself. */
  lemma ExhaustedStep(list1: seq<int>, list2: seq<int>, i: nat)
    requires list2 != [] && i + 1 < |list1|
    ensures ExhaustedBefore(list1, list2, i + 1)
      <==> ExhaustedBefore(list1, list2, i) || list2[|list2| - 1] <= list1[i] < list1[i + 1]
  {
    if ExhaustedBefore(list1, list2, i + 1) && !(list2[|list2| - 1] <= list1[i] < list1[i + 1]) {
      var k :| 0 <= k && k + 1 <= i + 1 && k + 1 < |list1| && list2[|list2| - 1] <= list1[k] < list1[k + 1];
      assert k != i;
    }
  }

  /** A scan of a sorted list that started before its end reaches the end exactly when the last value is at most `left`. */
  lemma LastAtMost(list2: seq<int>, left: int, from: nat, to: nat)
    requires Sorted(list2) && from < |list2| && from <= to <= |list2|
    requires forall j :: from <= j < to ==> list2[j] <= left
    requires to < |list2| ==> list2[to] > left
    ensures to == |list2| <==> list2[|list2| - 1] <= left
  {
  }

  /**
   * Part 2 as written, on sorted lists: it reads past the end of `list2`
   * exactly when `list1` is not empty and either `list2` is empty or some
   * left value at least the last right value is followed by a greater left
   * value; otherwise it gives the similarity score.
   */
  lemma SimilarityAsWrittenIs(list1: seq<int>, list2: seq<int>)
    requires Sorted(list1) && Sorted(list2)
    ensures SimilarityAsWritten(list1, list2)
      == if ReadsPastEnd(list1, list2) then None else Some(SimScore(list1, multiset(list2)))
  {
    assert list1[..0] == [];
    OuterAsWrittenIs(list1, list2, 0, 0, 0);
  }

  /**
   * Sorted lists of equal length on which the loop as written reads
   * `list2[2]` of a two-element vector: the first left value consumes all of
   * `list2`, and the next, larger one starts its scan at the end.
   */
  lemma SimilarityAsWrittenReadsPastEnd()
    ensures Sorted([1, 5]) && Sorted([1, 1])
    ensures SimilarityAsWritten([1, 5], [1, 1]) == None
    ensures SimScore([1, 5], multiset([1, 1])) == 2
  {
    var list2 := [1, 1];
    assert ScanAsWritten(list2, 1, 0, 0) == Some((2, 2));
    assert ScanAsWritten(list2, 5, 2, 2) == None;
    assert [1, 5][..1] == [1] && [1][..0] == [];
    assert multiset(list2) == multiset{1, 1};
    assert SimScore([1], multiset(list2)) == 2;
  }

  // ---------------------------------------------------------------------------
  // The program
  // ---------------------------------------------------------------------------

  /** A vector holding `list`, sorted in place by `std::sort`. */
  method SortedCopy(list: seq<int>) returns (sorted: seq<int>)
    ensures sorted == SortedOf(list)
  {
    var a := new int[|list|](k requires 0 <= k < |list| => list[k]);
    assert a[..] == list;
    SortInPlace(a);
    SortedOfIsSortedPermutation(list);
    SortedPermutationIsUnique(a[..], SortedOf(list));
    sorted := a[..];
  }

  /**
   * `main` after the file is opened: read both lists, sort them, then part 1
   * and part 2 (with the bound tested before the read). `None` when a line
   * does not parse; otherwise the sum of distances between the sorted lists
   * and the similarity score of the lists as read.
   */
  method Solve(lines: seq<string>) returns (r: Option<(int, int)>)
    ensures Columns(ParsedLines(lines)).None? ==> r.None?
    ensures Columns(ParsedLines(lines)).Some? ==>
      var (list1, list2) := Columns(ParsedLines(lines)).value;
      r == Some((SumDist(SortedOf(list1), SortedOf(list2)), SimScore(list1, multiset(list2))))
  {
    var lists := ReadLists(lines);
    if lists.None? {
      return None;
    }
    var (list1, list2) := lists.value;
    var sorted1 := SortedCopy(list1);
    var sorted2 := SortedCopy(list2);
    SortedOfIsSortedPermutation(list1);
    SortedOfIsSortedPermutation(list2);
    var sumDistances := SumDistances(sorted1, sorted2);
    var similarityScore := SimilarityScore(sorted1, sorted2);
    SimScorePermutation(sorted1, list1, multiset(list2));
    r := Some((sumDistances, similarityScore));
  }
}
