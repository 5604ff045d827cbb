// The reviewable hunks of one file: reading them out of a unified diff, and splicing any accepted subset of
// them back into the base lines (backend/services/agent/code_workspace.py, parse_diff_to_hunks and
// apply_hunks_to_file). Text is a sequence of lines.
module Hunks {
  import opened Decimal
  import opened EditScripts
  import opened Strings
  import opened Wrappers

  datatype HunkStatus = Pending | Rejected

  datatype Hunk = Hunk(
    index: nat,
    oldStart: nat,
    oldLen: nat,
    newStart: nat,
    newLen: nat,
    header: string,
    lines: Lines,
    oldLines: Lines,
    newLines: Lines,
    status: HunkStatus)

  datatype Header = Header(oldStart: nat, oldLen: nat, newStart: nat, newLen: nat)

  // ----- Headers -----

  /** Reads `(\d+),?(\d*)` and returns start, length (1 when no length is given) and the rest. */
  function MatchRange(s: string): (r: Option<(nat, nat, string)>) {
    var a := DigitRun(s);
    if a == 0 then None
    else
      var rest := s[a..];
      var tail := if rest != [] && rest[0] == ',' then rest[1..] else rest;
      var b := DigitRun(tail);
      Some((Parse(s[..a]), if b > 0 then Parse(tail[..b]) else 1, tail[b..]))
  }

  /** `@@ -(\d+),?(\d*) \+(\d+),?(\d*) @@` matched at the start of the line. */
  function MatchHeader(line: string): (r: Option<Header>) {
    if !StartsWith(line, "@@ -") then None
    else match MatchRange(line[4..])
      case None => None
      case Some((oldStart, oldLen, rest)) =>
        if !StartsWith(rest, " +") then None
        else match MatchRange(rest[2..])
          case None => None
          case Some((newStart, newLen, end)) =>
            if StartsWith(end, " @@") then Some(Header(oldStart, oldLen, newStart, newLen)) else None
  }

  /** The line number a range starts at, as written: an empty range names the line before it. */
  function RangeStart(pos: nat, len: nat): nat {
    if len == 0 then pos else pos + 1
  }

  lemma NumberRoundTrip(n: nat, rest: string)
    requires rest == [] || !IsDigit(rest[0])
    ensures var s := Format(n) + rest; var a := DigitRun(s);
      a > 0 && Parse(s[..a]) == n && s[a..] == rest
  {
    DigitRunAppend(Format(n), rest);
    ParseFormat(n);
    assert (Format(n) + rest)[..|Format(n)|] == Format(n);
  }

  lemma RangeRoundTrip(pos: nat, len: nat, rest: string)
    requires rest != [] && rest[0] == ' '
    ensures MatchRange(FormatRange(pos, len) + rest) == Some((RangeStart(pos, len), len, rest))
  {
    hide Format, DigitRun, Parse;
    var start := RangeStart(pos, len);
    if len == 1 {
      NumberRoundTrip(start, rest);
      NoNumber(rest);
    } else {
      var tail := Format(len) + rest;
      assert FormatRange(pos, len) + rest == Format(start) + ("," + tail);
      NumberRoundTrip(start, "," + tail);
      assert ("," + tail)[1..] == tail;
      NumberRoundTrip(len, rest);
    }
  }

  lemma NoNumber(rest: string)
    requires rest == [] || !IsDigit(rest[0])
    ensures DigitRun(rest) == 0 && rest[0..] == rest
  {
  }

  /** Every header is read back exactly, one-line and empty ranges included. */
  lemma {:induction false} HeaderRoundTrip(g: Group)
    ensures MatchHeader(FormatHeader(g)) ==
      Some(Header(RangeStart(g.oldPos, |OldOf(g.edits)|), |OldOf(g.edits)|,
                  RangeStart(g.newPos, |NewOf(g.edits)|), |NewOf(g.edits)|))
  {
    var oldRange := FormatRange(g.oldPos, |OldOf(g.edits)|);
    var newRange := FormatRange(g.newPos, |NewOf(g.edits)|);
    var line := FormatHeader(g);
    var mid := " +" + (newRange + " @@");
    assert line == "@@ -" + (oldRange + mid);
    assert line[4..] == oldRange + mid;
    RangeRoundTrip(g.oldPos, |OldOf(g.edits)|, mid);
    assert mid[2..] == newRange + " @@";
    RangeRoundTrip(g.newPos, |NewOf(g.edits)|, " @@");
  }

  // ----- Parsing -----

  function NewHunk(index: nat, h: Header, line: string): Hunk {
    Hunk(index, h.oldStart, h.oldLen, h.newStart, h.newLen, line, [], [], [], Pending)
  }

  function AddDiffLine(h: Hunk, line: string): Hunk {
    var text := if line == [] then [] else line[1..];
    var h' := h.(lines := h.lines + [line]);
    if StartsWith(line, "-") then h'.(oldLines := h.oldLines + [text])
    else if StartsWith(line, "+") then h'.(newLines := h.newLines + [text])
    else h'.(oldLines := h.oldLines + [text], newLines := h.newLines + [text])
  }

  /** The variables of the parse loop. */
  datatype ParseState = ParseState(hunks: seq<Hunk>, current: Option<Hunk>, nextIndex: nat)

  function Flush(s: ParseState): seq<Hunk> {
    if s.current.Some? then s.hunks + [s.current.value] else s.hunks
  }

  function ParseLine(s: ParseState, line: string): ParseState {
    if StartsWith(line, "---") || StartsWith(line, "+++") then s
    else if StartsWith(line, "@@") then
      match MatchHeader(line)
      case Some(h) => ParseState(Flush(s), Some(NewHunk(s.nextIndex, h, line)), s.nextIndex + 1)
      case None => s
    else if s.current.Some? then s.(current := Some(AddDiffLine(s.current.value, line)))
    else s
  }

  function ParseLines(s: ParseState, diff: Lines): ParseState
    decreases |diff|
  {
    if diff == [] then s else ParseLines(ParseLine(s, diff[0]), diff[1..])
  }

  function ParsedHunks(diff: Lines): seq<Hunk> {
    Flush(ParseLines(ParseState([], None, 0), diff))
  }

  method ParseDiffToHunks(diff: Lines) returns (hunks: seq<Hunk>)
    ensures hunks == ParsedHunks(diff)
  {
    hunks := [];
    var current: Option<Hunk> := None;
    var hunkIdx := 0;
    for i := 0 to |diff|
      invariant ParseLines(ParseState(hunks, current, hunkIdx), diff[i..]) == ParseLines(ParseState([], None, 0), diff)
    {
      var line := diff[i];
      ghost var before := ParseState(hunks, current, hunkIdx);
      assert diff[i..][0] == line && diff[i..][1..] == diff[i + 1..];
      if StartsWith(line, "---") || StartsWith(line, "+++") {
        continue;
      }
      if StartsWith(line, "@@") {
        var m := MatchHeader(line);
        if m.Some? {
          if current.Some? {
            hunks := hunks + [current.value];
          }
          current := Some(NewHunk(hunkIdx, m.value, line));
          hunkIdx := hunkIdx + 1;
        }
        assert ParseState(hunks, current, hunkIdx) == ParseLine(before, line);
        continue;
      }
      if current.Some? {
        current := Some(AddDiffLine(current.value, line));
      }
      assert ParseState(hunks, current, hunkIdx) == ParseLine(before, line);
    }
    if current.Some? {
      hunks := hunks + [current.value];
    }
  }

  // ----- Splicing -----

  function Clamp(i: int, n: nat): nat {
    if i < 0 then (if i + n < 0 then 0 else i + n) else if i > n then n else i
  }

  /** `lines[lo:hi] = replacement` with Python's treatment of negative and out-of-range bounds. */
  function SliceAssign(lines: Lines, lo: int, hi: int, replacement: Lines): Lines {
    var a := Clamp(lo, |lines|);
    var b := Clamp(hi, |lines|);
    lines[..a] + replacement + lines[if b < a then a else b..]
  }

  function InsertByStart(h: Hunk, hs: seq<Hunk>): seq<Hunk> {
    if hs == [] then [h]
    else if h.oldStart <= hs[0].oldStart then [h] + hs
    else [hs[0]] + InsertByStart(h, hs[1..])
  }

  /** The stable sort by `old_start`. */
  function SortByStart(hs: seq<Hunk>): seq<Hunk> {
    if hs == [] then [] else InsertByStart(hs[0], SortByStart(hs[1..]))
  }

  /** What the splice loop returns, given the lines and the offset it has reached. */
  function SpliceFrom(lines: Lines, offset: int, hs: seq<Hunk>): Lines
    decreases |hs|
  {
    if hs == [] then lines
    else
      var h := hs[0];
      if h.status.Rejected? then SpliceFrom(lines, offset, hs[1..])
      else
        var start := h.oldStart + offset - 1;
        SpliceFrom(SliceAssign(lines, start, start + h.oldLen, h.newLines),
                   offset + |h.newLines| - h.oldLen, hs[1..])
  }

  method ApplyHunksToFile(oldLines: Lines, hunks: seq<Hunk>) returns (lines: Lines)
    ensures lines == SpliceFrom(oldLines, 0, SortByStart(hunks))
    ensures WellPlaced(oldLines, SortByStart(hunks)) ==> lines == Replaced(oldLines, 0, SortByStart(hunks))
  {
    lines := oldLines;
    var sorted := SortByStart(hunks);
    var offset := 0;
    for i := 0 to |sorted|
      invariant SpliceFrom(lines, offset, sorted[i..]) == SpliceFrom(oldLines, 0, sorted)
    {
      var hunk := sorted[i];
      assert sorted[i..][0] == hunk && sorted[i..][1..] == sorted[i + 1..];
      if hunk.status.Rejected? {
        continue;
      }
      var startIdx := hunk.oldStart + offset - 1;
      var endIdx := startIdx + hunk.oldLen;
      lines := SliceAssign(lines, startIdx, endIdx, hunk.newLines);
      var shift := |hunk.newLines| - hunk.oldLen;
      offset := offset + shift;
    }
    if WellPlaced(oldLines, sorted) {
      SpliceIsReplacement(oldLines, sorted);
    }
  }

  // ----- The reference: replacing ranges of the base lines, in base coordinates only -----

  function Start0(h: Hunk): nat {
    if h.oldStart == 0 then 0 else h.oldStart - 1
  }

  /** `rest`, the old lines from line `cursor` on, with each accepted range replaced by its new lines. */
  function Replaced(rest: Lines, cursor: nat, hs: seq<Hunk>): Lines
    requires InOrder(|rest|, cursor, hs)
    decreases |hs|
  {
    if hs == [] then rest
    else
      var h := hs[0];
      var from := Start0(h) - cursor;
      var to := from + h.oldLen;
      rest[..from] + (if h.status.Rejected? then rest[from..to] else h.newLines)
        + Replaced(rest[to..], cursor + to, hs[1..])
  }

  /** The ranges follow one another within the next `remaining` lines. */
  predicate InOrder(remaining: nat, cursor: nat, hs: seq<Hunk>)
    decreases |hs|
  {
    hs == [] || (
      var end := Start0(hs[0]) + hs[0].oldLen;
      cursor <= Start0(hs[0]) && end <= cursor + remaining && InOrder(cursor + remaining - end, end, hs[1..]))
  }

  /** In order, and line 0 is named only by the single hunk of an empty file. */
  predicate WellPlaced(base: Lines, hs: seq<Hunk>) {
    && InOrder(|base|, 0, hs)
    && ((forall h <- hs :: h.oldStart >= 1) || (base == [] && |hs| == 1))
  }

  lemma SliceMiddle(front: Lines, middle: Lines, back: Lines, replacement: Lines)
    ensures SliceAssign(front + middle + back, |front|, |front| + |middle|, replacement) == front + replacement + back
  {
    var lines := front + middle + back;
    assert lines[..|front|] == front;
    assert lines[|front| + |middle|..] == back;
  }

  /** One accepted hunk, met with the running offset, replaces its own range. */
  lemma SpliceOne(kept: Lines, middle: Lines, back: Lines, offset: int, h: Hunk, hs: seq<Hunk>)
    requires h.status.Pending? && h.oldLen == |middle| && h.oldStart + offset - 1 == |kept|
    ensures SpliceFrom(kept + middle + back, offset, [h] + hs) ==
      SpliceFrom(kept + h.newLines + back, offset + |h.newLines| - |middle|, hs)
  {
    SliceMiddle(kept, middle, back, h.newLines);
    assert ([h] + hs)[1..] == hs;
  }

  lemma SpliceStep(front: Lines, gap: Lines, middle: Lines, back: Lines, offset: int, h: Hunk, hs: seq<Hunk>, tail: Lines)
    requires h.oldLen == |middle| && h.oldStart + offset - 1 == |front| + |gap|
    requires var result := if h.status.Rejected? then middle else h.newLines;
      SpliceFrom(front + gap + result + back, offset + |result| - |middle|, hs) == front + gap + result + tail
    ensures var result := if h.status.Rejected? then middle else h.newLines;
      SpliceFrom(front + (gap + middle + back), offset, [h] + hs) == front + (gap + result + tail)
  {
    hide SliceAssign;
    var result := if h.status.Rejected? then middle else h.newLines;
    assert front + (gap + middle + back) == front + gap + middle + back;
    assert front + (gap + result + tail) == front + gap + result + tail;
    if h.status.Rejected? {
      assert ([h] + hs)[1..] == hs;
    } else {
      SpliceOne(front + gap, middle, back, offset, h, hs);
    }
  }

  lemma ReplacedStep(rest: Lines, cursor: nat, hs: seq<Hunk>, gap: Lines, middle: Lines, back: Lines)
    requires hs != [] && InOrder(|rest|, cursor, hs)
    requires rest == gap + middle + back
    requires |gap| == Start0(hs[0]) - cursor && |middle| == hs[0].oldLen
    ensures InOrder(|back|, cursor + |gap| + |middle|, hs[1..])
    ensures Replaced(rest, cursor, hs) ==
      gap + (if hs[0].status.Rejected? then middle else hs[0].newLines) + Replaced(back, cursor + |gap| + |middle|, hs[1..])
  {
    assert rest[..|gap|] == gap && rest[|gap|..|gap| + |middle|] == middle && rest[|gap| + |middle|..] == back;
  }

  lemma SpliceEnd(front: Lines, rest: Lines, cursor: nat)
    ensures SpliceFrom(front + rest, |front| - cursor, []) == front + Replaced(rest, cursor, [])
  {
  }

  lemma {:induction false} SpliceTail(front: Lines, rest: Lines, cursor: nat, hs: seq<Hunk>)
    requires InOrder(|rest|, cursor, hs)
    requires forall h <- hs :: h.oldStart >= 1
    ensures SpliceFrom(front + rest, |front| - cursor, hs) == front + Replaced(rest, cursor, hs)
    decreases |hs|
  {
    hide SpliceFrom, Replaced, SliceAssign;
    if hs == [] {
      SpliceEnd(front, rest, cursor);
    } else {
      var h := hs[0];
      var from := Start0(h) - cursor;
      var to := from + h.oldLen;
      var gap, middle, back := rest[..from], rest[from..to], rest[to..];
      var result := if h.status.Rejected? then middle else h.newLines;
      ReplacedStep(rest, cursor, hs, gap, middle, back);
      SpliceTail(front + gap + result, back, cursor + to, hs[1..]);
      SpliceStep(front, gap, middle, back, |front| - cursor, h, hs[1..], Replaced(back, cursor + to, hs[1..]));
      assert hs == [h] + hs[1..];
    }
  }

  /** The running-offset loop replaces exactly the accepted ranges. */
  lemma {:induction false} SpliceIsReplacement(base: Lines, hs: seq<Hunk>)
    requires WellPlaced(base, hs)
    ensures SpliceFrom(base, 0, hs) == Replaced(base, 0, hs)
  {
    if forall h <- hs :: h.oldStart >= 1 {
      assert [] + base == base;
      SpliceTail([], base, 0, hs);
      assert [] + Replaced(base, 0, hs) == Replaced(base, 0, hs);
    } else {
      assert hs[1..] == [];
    }
  }

  // ----- The order of the list does not matter -----

  predicate DistinctStarts(hs: seq<Hunk>) {
    forall i, j :: 0 <= i < j < |hs| ==> hs[i].oldStart != hs[j].oldStart
  }

  predicate StrictlySorted(hs: seq<Hunk>) {
    hs == [] || ((forall h <- hs[1..] :: hs[0].oldStart < h.oldStart) && StrictlySorted(hs[1..]))
  }

  lemma {:induction false} InsertMultiset(h: Hunk, hs: seq<Hunk>)
    ensures multiset(InsertByStart(h, hs)) == multiset{h} + multiset(hs)
  {
    if hs != [] && h.oldStart > hs[0].oldStart {
      var rest := InsertByStart(h, hs[1..]);
      InsertMultiset(h, hs[1..]);
      ConsMultiset(hs[0], rest);
      ConsMultiset(hs[0], hs[1..]);
      assert hs == [hs[0]] + hs[1..];
      assert InsertByStart(h, hs) == [hs[0]] + rest;
    } else {
      ConsMultiset(h, hs);
      assert InsertByStart(h, hs) == [h] + hs;
    }
  }

  lemma ConsMultiset(h: Hunk, hs: seq<Hunk>)
    ensures multiset([h] + hs) == multiset{h} + multiset(hs)
  {
  }

  lemma SameMembers(a: seq<Hunk>, b: seq<Hunk>)
    requires multiset(a) == multiset(b)
    ensures forall h :: h in a <==> h in b
  {
    forall h ensures h in a <==> h in b {
      assert h in a <==> h in multiset(a);
      assert h in b <==> h in multiset(b);
    }
  }

  lemma {:induction false} InsertKeepsSorted(h: Hunk, hs: seq<Hunk>)
    requires StrictlySorted(hs)
    requires forall x <- hs :: x.oldStart != h.oldStart
    ensures StrictlySorted(InsertByStart(h, hs))
  {
    if hs != [] {
      if h.oldStart > hs[0].oldStart {
        InsertKeepsSorted(h, hs[1..]);
        InsertMultiset(h, hs[1..]);
        SameMembers(InsertByStart(h, hs[1..]), [h] + hs[1..]);
      } else {
        assert ([h] + hs)[1..] == hs;
      }
    }
  }

  lemma {:induction false} SortSorts(hs: seq<Hunk>)
    requires DistinctStarts(hs)
    ensures StrictlySorted(SortByStart(hs))
    ensures multiset(SortByStart(hs)) == multiset(hs)
  {
    if hs != [] {
      var r := SortByStart(hs[1..]);
      SortSorts(hs[1..]);
      SameMembers(r, hs[1..]);
      InsertKeepsSorted(hs[0], r);
      InsertMultiset(hs[0], r);
      assert hs == [hs[0]] + hs[1..];
    }
  }

  lemma {:induction false} SortedUnique(a: seq<Hunk>, b: seq<Hunk>)
    requires StrictlySorted(a) && StrictlySorted(b)
    requires multiset(a) == multiset(b)
    ensures a == b
  {
    assert |a| == |multiset(a)| && |b| == |multiset(b)|;
    if a != [] {
      SameMembers(a, b);
      assert a == [a[0]] + a[1..] && b == [b[0]] + b[1..];
      assert a[0] in b && b[0] in a;
      assert a[0] == b[0];
      assert multiset(a[1..]) == multiset(a) - multiset{a[0]};
      assert multiset(b[1..]) == multiset(b) - multiset{b[0]};
      SortedUnique(a[1..], b[1..]);
    }
  }

  lemma CountTwice(hs: seq<Hunk>, i: nat, j: nat)
    requires i < j < |hs| && hs[i] == hs[j]
    ensures multiset(hs)[hs[i]] >= 2
  {
    assert hs == hs[..j] + [hs[j]] + hs[j + 1..];
    assert hs[i] == hs[..j][i];
    assert hs[i] in multiset(hs[..j]);
  }

  /** Distinct starts survive any reordering. */
  lemma ReorderKeepsDistinct(a: seq<Hunk>, b: seq<Hunk>)
    requires DistinctStarts(a) && multiset(a) == multiset(b)
    ensures DistinctStarts(b)
  {
    SameMembers(a, b);
    forall i, j | 0 <= i < j < |b| ensures b[i].oldStart != b[j].oldStart {
      assert b[i] in a && b[j] in a;
      if b[i] == b[j] {
        CountTwice(b, i, j);
        SplitAtMember(a, b[i]);
      }
    }
  }

  lemma SplitAtMember(hs: seq<Hunk>, h: Hunk)
    requires DistinctStarts(hs)
    ensures multiset(hs)[h] <= 1
  {
    if h in hs {
      var k :| 0 <= k < |hs| && hs[k] == h;
      assert hs == hs[..k] + [hs[k]] + hs[k + 1..];
      assert h !in hs[..k] && h !in hs[k + 1..];
    } else {
      assert h !in multiset(hs);
    }
  }

  /** Listing the hunks in another order changes nothing. */
  lemma {:induction false} OrderIrrelevant(base: Lines, a: seq<Hunk>, b: seq<Hunk>)
    requires DistinctStarts(a) && multiset(a) == multiset(b)
    ensures SpliceFrom(base, 0, SortByStart(a)) == SpliceFrom(base, 0, SortByStart(b))
  {
    ReorderKeepsDistinct(a, b);
    SortSorts(a);
    SortSorts(b);
    SortedUnique(SortByStart(a), SortByStart(b));
  }
}
