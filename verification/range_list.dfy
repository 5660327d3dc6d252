/** ParseRangeList (utils.cc): the kernel's cpulist format, "1,3-5,7". */
module RangeLists {
  import opened Options
  import opened Text

  /** An inclusive range, or a single number when both ends are equal. */
  datatype Range = Range(lo: int, hi: int)

  /** The outcome of parsing: a list, an error status, or a loop counter that passes INT_MAX. */
  datatype Parsed = Numbers(list: seq<int>) | Rejected | Overflows

  /** A piece between commas: one number, or two separated by '-'. `wide` tells the two forms apart, because
      only the second runs a loop up to its upper end. */
  datatype Piece = Piece(range: Range, wide: bool)

  function ParsePiece(s: string): Option<Piece> {
    var parts := Split(s, '-');
    if |parts| == 1 then
      match SimpleAtoi(parts[0])
      case None => None
      case Some(v) => Some(Piece(Range(v, v), false))
    else if |parts| == 2 then
      match (SimpleAtoi(parts[0]), SimpleAtoi(parts[1]))
      case (Some(lo), Some(hi)) => Some(Piece(Range(lo, hi), true))
      case _ => None
    else None
  }

  /** The numbers of a range. */
  function Expand(r: Range): (list: seq<int>)
    ensures |list| == if r.lo <= r.hi then r.hi - r.lo + 1 else 0
    ensures forall k | 0 <= k < |list| :: list[k] == r.lo + k
    decreases r.hi - r.lo
  {
    if r.lo > r.hi then [] else Expand(Range(r.lo, r.hi - 1)) + [r.hi]
  }

  function Concat(ranges: seq<Range>): seq<int> {
    if ranges == [] then [] else Concat(ranges[..|ranges| - 1]) + Expand(ranges[|ranges| - 1])
  }

  /** The upper end of the last range, or -1: what the next piece must exceed. */
  function LastOf(ranges: seq<Range>): int {
    if ranges == [] then -1 else ranges[|ranges| - 1].hi
  }

  /** Every range is non-negative, in order, and above all those before it. */
  predicate Ascending(ranges: seq<Range>) {
    && (forall k | 0 <= k < |ranges| :: 0 <= ranges[k].lo <= ranges[k].hi)
    && (forall j, k | 0 <= j < k < |ranges| :: ranges[j].hi < ranges[k].lo)
  }

  /** What each piece between commas writes, if it is well formed. */
  function ReadPieces(text: string): (pieces: seq<Option<Piece>>)
    ensures |pieces| == |Split(text, ',')|
    ensures forall k | 0 <= k < |pieces| :: pieces[k] == ParsePiece(Split(text, ',')[k])
  {
    var written := Split(text, ',');
    seq(|written|, k requires 0 <= k < |written| => ParsePiece(written[k]))
  }

  /** The ranges of a list of pieces, when all are well formed. */
  function WrittenRanges(pieces: seq<Option<Piece>>): Option<seq<Range>> {
    if pieces == [] then Some([]) else
    match (WrittenRanges(pieces[..|pieces| - 1]), pieces[|pieces| - 1])
    case (Some(ranges), Some(p)) => Some(ranges + [p.range])
    case _ => None
  }

  /** The ranges of a list of pieces, if they are well formed and ascending. */
  function Meaning(pieces: seq<Option<Piece>>): Option<seq<Range>> {
    match WrittenRanges(pieces)
    case None => None
    case Some(ranges) => if Ascending(ranges) then Some(ranges) else None
  }

  /** The pieces up to k are well formed and ascending, and piece k is a wide range up to INT_MAX, whose
      loop counter cannot pass its upper end. */
  predicate OverflowsAt(pieces: seq<Option<Piece>>, k: nat) {
    k < |pieces| &&
    var ranges, p := WrittenRanges(pieces[..k + 1]), pieces[k];
    ranges.Some? && Ascending(ranges.value) && p.Some? && p.value.wide && p.value.range.hi == INT_MAX
  }

  /** What parsing must answer. */
  ghost predicate Verdict(pieces: seq<Option<Piece>>, r: Parsed) {
    if r.Overflows? then exists k :: OverflowsAt(pieces, k)
    else
      && (forall k :: !OverflowsAt(pieces, k))
      && r == match Meaning(pieces) case None => Rejected case Some(ranges) => Numbers(Concat(ranges))
  }

  // ---- The loop ----

  lemma WrittenRangesExtend(pieces: seq<Option<Piece>>, next: Option<Piece>)
    ensures WrittenRanges(pieces + [next]) ==
            match (WrittenRanges(pieces), next)
            case (Some(ranges), Some(p)) => Some(ranges + [p.range])
            case _ => None
  {
    assert (pieces + [next])[..|pieces|] == pieces;
  }

  lemma AscendingExtend(ranges: seq<Range>, r: Range)
    ensures Ascending(ranges + [r]) <==> Ascending(ranges) && LastOf(ranges) < r.lo <= r.hi
  {
    var all := ranges + [r];
    if Ascending(all) {
      forall k | 0 <= k < |ranges| ensures all[k] == ranges[k] && ranges[k].hi < r.lo { assert all[|ranges|] == r; }
    }
  }

  lemma ConcatExtend(ranges: seq<Range>, r: Range)
    ensures Concat(ranges + [r]) == Concat(ranges) + Expand(r)
  {
    assert (ranges + [r])[..|ranges|] == ranges;
  }

  /** A piece that is malformed, or not above its predecessor, spoils the whole list. */
  lemma {:induction false} BadPrefix(pieces: seq<Option<Piece>>, n: nat)
    requires n <= |pieces|
    requires WrittenRanges(pieces[..n]) == None || !Ascending(WrittenRanges(pieces[..n]).value)
    ensures WrittenRanges(pieces) == None || !Ascending(WrittenRanges(pieces).value)
    decreases |pieces| - n
  {
    if n == |pieces| {
      assert pieces[..n] == pieces;
    } else {
      assert pieces[..n + 1] == pieces[..n] + [pieces[n]];
      WrittenRangesExtend(pieces[..n], pieces[n]);
      if WrittenRanges(pieces[..n + 1]).Some? {
        AscendingExtend(WrittenRanges(pieces[..n]).value, pieces[n].value.range);
      }
      BadPrefix(pieces, n + 1);
    }
  }

  /** The inner loop: appends from .. to, or runs past INT_MAX. */
  method AppendRange(result: seq<int>, from: int, to: int) returns (r: seq<int>, overflow: bool)
    requires INT_MIN <= from <= to <= INT_MAX
    ensures overflow <==> to == INT_MAX
    ensures !overflow ==> r == result + Expand(Range(from, to))
  {
    r := result;
    var i := from;
    while i <= to
      invariant from <= i <= to + 1 && (i <= to || to < INT_MAX)
      invariant r == result + Expand(Range(from, i - 1))
    {
      r := r + [i];
      if i == INT_MAX { return r, true; }
      i := i + 1;
    }
    overflow := false;
  }

  /** What the loop knows after the pieces before n. */
  ghost predicate ReadSoFar(pieces: seq<Option<Piece>>, n: nat, ranges: seq<Range>, result: seq<int>, last: int) {
    && n <= |pieces|
    && WrittenRanges(pieces[..n]) == Some(ranges) && Ascending(ranges)
    && result == Concat(ranges) && last == LastOf(ranges)
    && forall k | 0 <= k < n :: !OverflowsAt(pieces, k)
  }

  /** A well-formed piece above its predecessors extends what was read, or is the one that overflows. */
  lemma GoodPiece(pieces: seq<Option<Piece>>, n: nat, ranges: seq<Range>, result: seq<int>, last: int, p: Piece)
    requires ReadSoFar(pieces, n, ranges, result, last) && n < |pieces|
    requires pieces[n] == Some(p) && last < p.range.lo <= p.range.hi
    ensures if p.wide && p.range.hi == INT_MAX then OverflowsAt(pieces, n)
            else ReadSoFar(pieces, n + 1, ranges + [p.range], result + Expand(p.range), p.range.hi)
  {
    assert pieces[..n + 1] == pieces[..n] + [pieces[n]];
    WrittenRangesExtend(pieces[..n], pieces[n]);
    AscendingExtend(ranges, p.range);
    ConcatExtend(ranges, p.range);
  }

  /** Any other piece spoils the list, and nothing behind it is reached. */
  lemma BadPiece(pieces: seq<Option<Piece>>, n: nat, ranges: seq<Range>, result: seq<int>, last: int)
    requires ReadSoFar(pieces, n, ranges, result, last) && n < |pieces|
    requires pieces[n].Some? ==> !(last < pieces[n].value.range.lo <= pieces[n].value.range.hi)
    ensures Verdict(pieces, Rejected)
  {
    assert pieces[..n + 1] == pieces[..n] + [pieces[n]];
    WrittenRangesExtend(pieces[..n], pieces[n]);
    if pieces[n].Some? { AscendingExtend(ranges, pieces[n].value.range); }
    BadPrefix(pieces, n + 1);
    forall k: nat | n <= k < |pieces|
      ensures !OverflowsAt(pieces, k)
    {
      assert pieces[..k + 1][..n + 1] == pieces[..n + 1];
      BadPrefix(pieces[..k + 1], n + 1);
    }
  }

  lemma AllRead(pieces: seq<Option<Piece>>, ranges: seq<Range>, result: seq<int>, last: int)
    requires ReadSoFar(pieces, |pieces|, ranges, result, last)
    ensures Verdict(pieces, Numbers(result))
  {
    assert pieces[..|pieces|] == pieces;
  }

  /** Accepts exactly the lists of well-formed ascending pieces, and returns their concatenation, unless a
      range up to INT_MAX is met first. */
  method ParseRangeList(text: string) returns (r: Parsed)
    ensures Verdict(ReadPieces(text), r)
  {
    var result: seq<int> := [];
    var last := -1;
    var written := Split(text, ',');
    ghost var pieces := ReadPieces(text);
    ghost var ranges: seq<Range> := [];
    for n := 0 to |written|
      invariant ReadSoFar(pieces, n, ranges, result, last)
    {
      var parts := Split(written[n], '-');
      if |parts| != 1 && |parts| != 2 { BadPiece(pieces, n, ranges, result, last); return Rejected; }
      var from := SimpleAtoi(parts[0]);
      if from == None || from.value <= last { BadPiece(pieces, n, ranges, result, last); return Rejected; }
      if |parts| == 1 {
        GoodPiece(pieces, n, ranges, result, last, Piece(Range(from.value, from.value), false));
        assert Expand(Range(from.value, from.value)) == [from.value];
        result := result + [from.value];
        last := from.value;
        ranges := ranges + [Range(from.value, from.value)];
      } else {
        var to := SimpleAtoi(parts[1]);
        if to == None || to.value < from.value { BadPiece(pieces, n, ranges, result, last); return Rejected; }
        GoodPiece(pieces, n, ranges, result, last, Piece(Range(from.value, to.value), true));
        var overflow;
        result, overflow := AppendRange(result, from.value, to.value);
        if overflow { return Overflows; }
        last := to.value;
        ranges := ranges + [Range(from.value, to.value)];
      }
    }
    AllRead(pieces, ranges, result, last);
    return Numbers(result);
  }

  // ---- What an accepted text means ----

  predicate StrictlyIncreasing(list: seq<int>) { forall i, j | 0 <= i < j < |list| :: list[i] < list[j] }

  /** An accepted list is strictly increasing, non-negative, and ends at the last upper end. */
  lemma {:induction false} AscendingConcat(ranges: seq<Range>)
    requires Ascending(ranges)
    ensures StrictlyIncreasing(Concat(ranges))
    ensures forall k | 0 <= k < |Concat(ranges)| :: 0 <= Concat(ranges)[k] <= LastOf(ranges)
    ensures ranges != [] ==> Concat(ranges) != [] && LastOf(ranges) >= 0
  {
    if ranges != [] {
      var front, r := ranges[..|ranges| - 1], ranges[|ranges| - 1];
      assert ranges == front + [r];
      AscendingExtend(front, r);
      AscendingConcat(front);
      AppendAbove(Concat(front), LastOf(front), r);
    }
  }

  lemma AppendAbove(list: seq<int>, last: int, r: Range)
    requires StrictlyIncreasing(list) && last < r.lo <= r.hi && 0 <= r.lo
    requires forall k | 0 <= k < |list| :: 0 <= list[k] <= last
    ensures StrictlyIncreasing(list + Expand(r)) && list + Expand(r) != []
    ensures forall k | 0 <= k < |list + Expand(r)| :: 0 <= (list + Expand(r))[k] <= r.hi
  {
  }

  /** Whatever list is returned is not empty, strictly increasing and non-negative. */
  lemma AcceptedListsIncrease(text: string, list: seq<int>)
    requires Verdict(ReadPieces(text), Numbers(list))
    ensures StrictlyIncreasing(list) && list != []
    ensures forall k | 0 <= k < |list| :: 0 <= list[k] <= INT_MAX
  {
    var pieces, ranges := ReadPieces(text), Meaning(ReadPieces(text)).value;
    AscendingConcat(ranges);
    WrittenCount(pieces);
    AtoiInRange(Split(text, ',')[|pieces| - 1]);
  }

  lemma {:induction false} WrittenCount(pieces: seq<Option<Piece>>)
    requires WrittenRanges(pieces).Some?
    ensures |WrittenRanges(pieces).value| == |pieces|
  {
    if pieces != [] { WrittenCount(pieces[..|pieces| - 1]); }
  }

  lemma AtoiInRange(s: string)
    ensures ParsePiece(s).Some? ==> ParsePiece(s).value.range.hi <= INT_MAX
  {
  }

  // ---- Printing ----

  predicate Printable(p: Piece) {
    0 <= p.range.lo <= p.range.hi <= INT_MAX && (!p.wide ==> p.range.lo == p.range.hi)
  }

  /** Both renderings of a range: a number alone, or two numbers and a '-'. */
  function Print(p: Piece): string
    requires Printable(p)
  {
    if p.wide then Decimal(p.range.lo) + ['-'] + Decimal(p.range.hi) else Decimal(p.range.lo)
  }

  function PrintAll(pieces: seq<Piece>): (printed: seq<string>)
    requires forall k | 0 <= k < |pieces| :: Printable(pieces[k])
    ensures |printed| == |pieces| && forall k | 0 <= k < |pieces| :: printed[k] == Print(pieces[k])
  {
    if pieces == [] then [] else PrintAll(pieces[..|pieces| - 1]) + [Print(pieces[|pieces| - 1])]
  }

  function RangesOf(pieces: seq<Piece>): seq<Range> {
    seq(|pieces|, k requires 0 <= k < |pieces| => pieces[k].range)
  }

  lemma DigitsFreeOf(s: string, c: char)
    requires AllDigits(s) && !IsDigit(c)
    ensures c !in s
  {
  }

  lemma PrintParses(p: Piece)
    requires Printable(p)
    ensures ParsePiece(Print(p)) == Some(p)
    ensures ',' !in Print(p)
  {
    var lo, hi := Decimal(p.range.lo), Decimal(p.range.hi);
    DigitsFreeOf(lo, '-');
    DigitsFreeOf(hi, '-');
    DigitsFreeOf(lo, ',');
    DigitsFreeOf(hi, ',');
    if p.wide {
      assert Join([lo, hi], '-') == Print(p) by { assert [lo, hi][1..] == [hi]; }
      SplitOfJoin([lo, hi], '-');
    } else {
      assert Join([lo], '-') == Print(p);
      SplitOfJoin([lo], '-');
    }
    PartsParse(Print(p), p);
  }

  /** A piece is what its parts are. */
  lemma PartsParse(s: string, p: Piece)
    requires Printable(p)
    requires Split(s, '-') == if p.wide then [Decimal(p.range.lo), Decimal(p.range.hi)] else [Decimal(p.range.lo)]
    ensures ParsePiece(s) == Some(p)
  {
    AtoiOfDecimal(p.range.lo);
    AtoiOfDecimal(p.range.hi);
  }

  lemma {:induction false} AllWellFormed(pieces: seq<Option<Piece>>, read: seq<Piece>)
    requires |pieces| == |read| && forall k | 0 <= k < |pieces| :: pieces[k] == Some(read[k])
    ensures WrittenRanges(pieces) == Some(RangesOf(read))
  {
    if pieces != [] {
      var n := |read| - 1;
      AllWellFormed(pieces[..n], read[..n]);
      assert RangesOf(read) == RangesOf(read[..n]) + [read[n].range];
    }
  }

  lemma ReadPrinted(pieces: seq<Piece>)
    requires pieces != [] && forall k | 0 <= k < |pieces| :: Printable(pieces[k])
    ensures var read := ReadPieces(Join(PrintAll(pieces), ','));
            |read| == |pieces| && forall k | 0 <= k < |pieces| :: read[k] == Some(pieces[k])
  {
    forall k | 0 <= k < |pieces|
      ensures ',' !in Print(pieces[k]) && ParsePiece(Print(pieces[k])) == Some(pieces[k])
    {
      PrintParses(pieces[k]);
    }
    SplitOfJoin(PrintAll(pieces), ',');
  }

  /** Some range is written with INT_MAX behind its '-'. */
  predicate RunsToIntMax(pieces: seq<Piece>) {
    exists k :: 0 <= k < |pieces| && pieces[k].wide && pieces[k].range.hi == INT_MAX
  }

  /** What must be answered when the pieces are well formed and ascending. */
  lemma WellFormedVerdict(read: seq<Option<Piece>>, pieces: seq<Piece>)
    requires |read| == |pieces| && forall k | 0 <= k < |pieces| :: read[k] == Some(pieces[k])
    requires Ascending(RangesOf(pieces))
    ensures Verdict(read, if RunsToIntMax(pieces) then Overflows else Numbers(Concat(RangesOf(pieces))))
  {
    if RunsToIntMax(pieces) {
      var k :| 0 <= k < |pieces| && pieces[k].wide && pieces[k].range.hi == INT_MAX;
      AllWellFormed(read[..k + 1], pieces[..k + 1]);
      assert RangesOf(pieces[..k + 1]) == RangesOf(pieces)[..k + 1];
      assert OverflowsAt(read, k);
    } else {
      AllWellFormed(read, pieces);
      forall k: nat | k < |pieces| ensures !OverflowsAt(read, k) {
        assert read[k] == Some(pieces[k]);
      }
    }
  }

  /** Parsing undoes printing: any ascending list of ranges, each written in either form that fits it, is read
      back as the numbers it stands for, unless one of them makes the loop run past INT_MAX. */
  lemma ParsePrinted(pieces: seq<Piece>)
    requires pieces != [] && (forall k | 0 <= k < |pieces| :: Printable(pieces[k])) && Ascending(RangesOf(pieces))
    ensures Verdict(ReadPieces(Join(PrintAll(pieces), ',')),
                    if RunsToIntMax(pieces) then Overflows else Numbers(Concat(RangesOf(pieces))))
  {
    ReadPrinted(pieces);
    WellFormedVerdict(ReadPieces(Join(PrintAll(pieces), ',')), pieces);
  }

  /** One piece for each number. */
  function Singles(list: seq<int>): seq<Piece> {
    if list == [] then [] else Singles(list[..|list| - 1]) + [Piece(Range(list[|list| - 1], list[|list| - 1]), false)]
  }

  /** One piece for each maximal run of consecutive numbers, as the kernel prints them. */
  function Runs(list: seq<int>): seq<Piece> {
    if list == [] then [] else AddToRuns(Runs(list[..|list| - 1]), list[|list| - 1])
  }

  function AddToRuns(runs: seq<Piece>, v: int): seq<Piece> {
    var n := |runs| - 1;
    if runs != [] && runs[n].range.hi + 1 == v then runs[..n] + [Piece(Range(runs[n].range.lo, v), true)]
    else runs + [Piece(Range(v, v), false)]
  }

  /** A new number above all ranges, as a range of its own. */
  lemma NumberAppended(ranges: seq<Range>, v: int)
    requires Ascending(ranges) && LastOf(ranges) < v && 0 <= v
    ensures Ascending(ranges + [Range(v, v)]) && Concat(ranges + [Range(v, v)]) == Concat(ranges) + [v]
  {
    AscendingExtend(ranges, Range(v, v));
    ConcatExtend(ranges, Range(v, v));
    assert Expand(Range(v, v)) == [v];
  }

  ghost predicate RunsStandFor(runs: seq<Piece>, list: seq<int>) {
    && Ascending(RangesOf(runs)) && Concat(RangesOf(runs)) == list
    && (forall k | 0 <= k < |runs| :: Printable(runs[k]))
    && (runs == [] <==> list == [])
    && (list != [] ==> runs[|runs| - 1].range.hi == list[|list| - 1])
  }

  /** A number just above the last run lengthens it. */
  lemma RunGrows(runs: seq<Piece>, list: seq<int>, v: int)
    requires RunsStandFor(runs, list) && list != [] && list[|list| - 1] + 1 == v <= INT_MAX
    ensures RunsStandFor(AddToRuns(runs, v), list + [v])
  {
    var n := |runs| - 1;
    var head, r := RangesOf(runs[..n]), runs[n].range;
    assert RangesOf(runs) == head + [r];
    assert RangesOf(AddToRuns(runs, v)) == head + [Range(r.lo, v)];
    AscendingExtend(head, r);
    AscendingExtend(head, Range(r.lo, v));
    ConcatExtend(head, r);
    ConcatExtend(head, Range(r.lo, v));
  }

  /** Any other number starts a run of its own. */
  lemma RunStarts(runs: seq<Piece>, list: seq<int>, v: int)
    requires RunsStandFor(runs, list) && 0 <= v <= INT_MAX && (list != [] ==> list[|list| - 1] + 1 < v)
    ensures RunsStandFor(AddToRuns(runs, v), list + [v])
  {
    var p := Piece(Range(v, v), false);
    assert AddToRuns(runs, v) == runs + [p];
    PieceAppended(runs, list, v, p);
  }

  lemma PieceAppended(runs: seq<Piece>, list: seq<int>, v: int, p: Piece)
    requires RunsStandFor(runs, list) && 0 <= v <= INT_MAX && (list != [] ==> list[|list| - 1] < v)
    requires p == Piece(Range(v, v), false)
    ensures RunsStandFor(runs + [p], list + [v])
  {
    RangesAppend(runs, p);
    NumberAppended(RangesOf(runs), v);
  }

  lemma RangesAppend(runs: seq<Piece>, p: Piece)
    ensures RangesOf(runs + [p]) == RangesOf(runs) + [p.range]
  {
  }

  lemma {:induction false} SinglesMean(list: seq<int>)
    requires StrictlyIncreasing(list) && forall k | 0 <= k < |list| :: 0 <= list[k] <= INT_MAX
    ensures RunsStandFor(Singles(list), list)
  {
    if list != [] {
      var front, v := list[..|list| - 1], list[|list| - 1];
      SinglesMean(front);
      assert list == front + [v];
      PieceAppended(Singles(front), front, v, Piece(Range(v, v), false));
    }
  }

  lemma {:induction false} RunsMean(list: seq<int>)
    requires StrictlyIncreasing(list) && forall k | 0 <= k < |list| :: 0 <= list[k] <= INT_MAX
    ensures RunsStandFor(Runs(list), list)
  {
    if list != [] {
      var front, v := list[..|list| - 1], list[|list| - 1];
      RunsMean(front);
      assert list == front + [v];
      if front != [] && front[|front| - 1] + 1 == v {
        RunGrows(Runs(front), front, v);
      } else {
        RunStarts(Runs(front), front, v);
      }
    }
  }

  lemma {:induction false} SinglesAreNarrow(list: seq<int>)
    ensures !RunsToIntMax(Singles(list))
  {
    if list != [] { SinglesAreNarrow(list[..|list| - 1]); }
  }

  /** The list ends with the two largest numbers an int can hold. */
  predicate EndsAtIntMax(list: seq<int>) {
    |list| >= 2 && list[|list| - 2] == INT_MAX - 1 && list[|list| - 1] == INT_MAX
  }

  lemma RunsBelowIntMax(runs: seq<Piece>, list: seq<int>)
    requires RunsStandFor(runs, list) && (list != [] ==> list[|list| - 1] < INT_MAX)
    ensures !RunsToIntMax(runs)
  {
    forall k | 0 <= k < |runs| ensures runs[k].range.hi < INT_MAX {
      if k < |runs| - 1 { assert RangesOf(runs)[k].hi < RangesOf(runs)[|runs| - 1].lo; }
    }
  }

  lemma NextRunsToIntMax(runs: seq<Piece>, list: seq<int>, n: nat)
    requires |list| == n + 1 && RunsStandFor(runs, list[..n]) && list[n] <= INT_MAX
    requires n > 0 ==> list[n - 1] < list[n]
    ensures RunsToIntMax(AddToRuns(runs, list[n])) <==> EndsAtIntMax(list)
  {
    RunsBelowIntMax(runs, list[..n]);
    LastPieceDecides(runs, list[n]);
  }

  lemma RunsToIntMaxWhen(list: seq<int>)
    requires StrictlyIncreasing(list) && forall k | 0 <= k < |list| :: 0 <= list[k] <= INT_MAX
    ensures RunsToIntMax(Runs(list)) <==> EndsAtIntMax(list)
  {
    if list != [] {
      var n := |list| - 1;
      RunsMean(list[..n]);
      NextRunsToIntMax(Runs(list[..n]), list, n);
    }
  }

  lemma LastPieceDecides(runs: seq<Piece>, v: int)
    requires !RunsToIntMax(runs)
    ensures RunsToIntMax(AddToRuns(runs, v)) <==>
            v == INT_MAX && runs != [] && runs[|runs| - 1].range.hi + 1 == v
  {
    var after := AddToRuns(runs, v);
    var last := after[|after| - 1];
    forall k | 0 <= k < |after| - 1 ensures !(after[k].wide && after[k].range.hi == INT_MAX) {
      assert after[k] == runs[k];
    }
    assert last.wide && last.range.hi == INT_MAX ==> RunsToIntMax(after);
  }

  /** Every strictly increasing non-empty list is read back from its comma-joined rendering. */
  lemma CommaJoinedRoundTrip(list: seq<int>)
    requires list != [] && StrictlyIncreasing(list) && forall k | 0 <= k < |list| :: 0 <= list[k] <= INT_MAX
    ensures (forall k | 0 <= k < |Singles(list)| :: Printable(Singles(list)[k]))
    ensures Verdict(ReadPieces(Join(PrintAll(Singles(list)), ',')), Numbers(list))
  {
    SinglesMean(list);
    SinglesAreNarrow(list);
    ParsePrinted(Singles(list));
  }

  /** And from its range-compressed rendering, exactly when it does not end in a run up to INT_MAX. */
  lemma CompressedRoundTrip(list: seq<int>)
    requires list != [] && StrictlyIncreasing(list) && forall k | 0 <= k < |list| :: 0 <= list[k] <= INT_MAX
    ensures (forall k | 0 <= k < |Runs(list)| :: Printable(Runs(list)[k]))
    ensures Verdict(ReadPieces(Join(PrintAll(Runs(list)), ',')), if EndsAtIntMax(list) then Overflows else Numbers(list))
  {
    RunsMean(list);
    RunsToIntMaxWhen(list);
    ParsePrinted(Runs(list));
  }
}
