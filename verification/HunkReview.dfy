// Reviewing hunks end to end: diff two texts by any edit script, parse the hunks, reject any subset, list them
// in any order, splice. Shows which text comes out.
module HunkReview {
  import opened EditScripts
  import opened Hunks
  import opened Strings
  import opened Sublists
  import opened Wrappers

  // ----- What the parser reads back -----

  /** A rendered edit that the parser skips, because its text looks like a file header. */
  predicate Skipped(e: Edit) {
    (e.Ins? && StartsWith(e.line, "++")) || (e.Del? && StartsWith(e.line, "--"))
  }

  function Visible(s: seq<Edit>): seq<Edit> {
    if s == [] then [] else (if Skipped(s[0]) then [] else [s[0]]) + Visible(s[1..])
  }

  function HunkOf(g: Group, index: nat): Hunk {
    var seen := Visible(g.edits);
    Hunk(index, RangeStart(g.oldPos, |OldOf(g.edits)|), |OldOf(g.edits)|,
         RangeStart(g.newPos, |NewOf(g.edits)|), |NewOf(g.edits)|,
         FormatHeader(g), EditLines(seen), OldOf(seen), NewOf(seen), Pending)
  }

  function HunksOf(gs: seq<Group>, index: nat): seq<Hunk> {
    if gs == [] then [] else [HunkOf(gs[0], index)] + HunksOf(gs[1..], index + 1)
  }

  function Extend(h: Hunk, seen: seq<Edit>): Hunk {
    h.(lines := h.lines + EditLines(seen), oldLines := h.oldLines + OldOf(seen), newLines := h.newLines + NewOf(seen))
  }

  lemma ParseConcat(s: ParseState, a: Lines, b: Lines)
    ensures ParseLines(s, a + b) == ParseLines(ParseLines(s, a), b)
    decreases |a|
  {
    if a == [] {
      assert a + b == b;
    } else {
      assert (a + b)[1..] == a[1..] + b;
      ParseConcat(ParseLine(s, a[0]), a[1..], b);
    }
  }

  lemma StartsWithCons(c: char, rest: string, p: char, prefix: string)
    ensures StartsWith([c] + rest, [p] + prefix) <==> c == p && StartsWith(rest, prefix)
  {
    var s := [c] + rest;
    if |prefix| <= |rest| {
      assert s[..|prefix| + 1] == [c] + rest[..|prefix|];
      assert ([p] + prefix)[1..] == prefix && ([c] + rest[..|prefix|])[1..] == rest[..|prefix|];
    }
  }

  lemma ParseEditLine(s: ParseState, e: Edit)
    requires s.current.Some?
    ensures ParseLine(s, EditLine(e)) ==
      if Skipped(e) then s else s.(current := Some(AddDiffLine(s.current.value, EditLine(e))))
  {
    var c := EditLine(e)[0];
    assert EditLine(e) == [c] + e.line;
    assert ['+'] + "++" == "+++" && ['-'] + "--" == "---" && ['@'] + "@" == "@@";
    StartsWithCons(c, e.line, '+', "++");
    StartsWithCons(c, e.line, '-', "--");
    StartsWithCons(c, e.line, '@', "@");
  }

  /** Adds one edit to a hunk under construction. */
  function AddEdit(h: Hunk, e: Edit): Hunk {
    var h' := h.(lines := h.lines + [EditLine(e)]);
    match e
    case Keep(l) => h'.(oldLines := h.oldLines + [l], newLines := h.newLines + [l])
    case Del(l) => h'.(oldLines := h.oldLines + [l])
    case Ins(l) => h'.(newLines := h.newLines + [l])
  }

  lemma AddEditLine(h: Hunk, e: Edit)
    ensures AddDiffLine(h, EditLine(e)) == AddEdit(h, e)
  {
    var c := EditLine(e)[0];
    assert EditLine(e) == [c] + e.line;
    assert EditLine(e)[1..] == e.line;
    assert ['+'] + [] == "+" && ['-'] + [] == "-";
    StartsWithCons(c, e.line, '+', []);
    StartsWithCons(c, e.line, '-', []);
  }

  lemma ExtendCons(h: Hunk, e: Edit, seen: seq<Edit>)
    ensures Extend(AddEdit(h, e), seen) == Extend(h, [e] + seen)
  {
    hide EditLines, OldOf, NewOf;
    ConsFacts(e, seen);
    var oldPart, newPart := if e.Ins? then [] else [e.line], if e.Del? then [] else [e.line];
    assert h.oldLines + [] == h.oldLines && h.newLines + [] == h.newLines;
    Associates(h.lines, [EditLine(e)], EditLines(seen));
    Associates(h.oldLines, oldPart, OldOf(seen));
    Associates(h.newLines, newPart, NewOf(seen));
  }

  lemma ParseOne(s: ParseState, line: string, rest: Lines)
    ensures ParseLines(s, [line] + rest) == ParseLines(ParseLine(s, line), rest)
  {
    assert ([line] + rest)[1..] == rest;
  }

  lemma {:induction false} ParseBody(s: ParseState, h: Hunk, edits: seq<Edit>)
    requires s.current == Some(h)
    ensures ParseLines(s, EditLines(edits)) == s.(current := Some(Extend(h, Visible(edits))))
    decreases |edits|
  {
    if edits == [] {
      assert h.lines + [] == h.lines && h.oldLines + [] == h.oldLines && h.newLines + [] == h.newLines;
    } else {
      var e := edits[0];
      ParseOne(s, EditLine(e), EditLines(edits[1..]));
      ParseEditLine(s, e);
      AddEditLine(h, e);
      var h' := if Skipped(e) then h else AddEdit(h, e);
      assert [] + Visible(edits[1..]) == Visible(edits[1..]);
      ParseBody(ParseLine(s, EditLine(e)), h', edits[1..]);
      ExtendCons(h, e, Visible(edits[1..]));
    }
  }

  lemma HeaderPrefix(g: Group)
    ensures var line := FormatHeader(g);
      StartsWith(line, "@@") && !StartsWith(line, "---") && !StartsWith(line, "+++")
  {
    var line := FormatHeader(g);
    assert line[0] == '@' && line[1] == '@';
    assert line[..2] == "@@";
    assert line[..3][0] == '@';
  }

  function EmptyHunk(g: Group, index: nat): Hunk {
    HunkOf(g, index).(lines := [], oldLines := [], newLines := [])
  }

  lemma HeaderHunk(g: Group, index: nat)
    ensures MatchHeader(FormatHeader(g)).Some?
    ensures NewHunk(index, MatchHeader(FormatHeader(g)).value, FormatHeader(g)) == EmptyHunk(g, index)
  {
    HeaderRoundTrip(g);
  }

  lemma ParseHeaderLine(s: ParseState, g: Group)
    ensures ParseLine(s, FormatHeader(g)) == ParseState(Flush(s), Some(EmptyHunk(g, s.nextIndex)), s.nextIndex + 1)
  {
    HeaderPrefix(g);
    HeaderHunk(g, s.nextIndex);
  }

  lemma ParseGroup(s: ParseState, g: Group)
    ensures ParseLines(s, RenderGroup(g)) == ParseState(Flush(s), Some(HunkOf(g, s.nextIndex)), s.nextIndex + 1)
  {
    var h := EmptyHunk(g, s.nextIndex);
    ParseHeaderLine(s, g);
    ParseOne(s, FormatHeader(g), EditLines(g.edits));
    ParseBody(ParseLine(s, FormatHeader(g)), h, g.edits);
    ExtendEmpty(h, Visible(g.edits));
  }

  lemma ExtendEmpty(h: Hunk, seen: seq<Edit>)
    requires h.lines == [] && h.oldLines == [] && h.newLines == []
    ensures Extend(h, seen) == h.(lines := EditLines(seen), oldLines := OldOf(seen), newLines := NewOf(seen))
  {
  }

  lemma {:induction false} ParseGroups(s: ParseState, gs: seq<Group>)
    ensures Flush(ParseLines(s, RenderGroups(gs))) == Flush(s) + HunksOf(gs, s.nextIndex)
    decreases |gs|
  {
    hide ParseLine, FormatHeader, HunkOf;
    if gs != [] {
      var g, rest := gs[0], gs[1..];
      var s' := ParseState(Flush(s), Some(HunkOf(g, s.nextIndex)), s.nextIndex + 1);
      ParseGroup(s, g);
      ParseConcat(s, RenderGroup(g), RenderGroups(rest));
      ParseGroups(s', rest);
      FlushCons(s, HunkOf(g, s.nextIndex), HunksOf(rest, s.nextIndex + 1));
    }
  }

  lemma FlushCons(s: ParseState, h: Hunk, hs: seq<Hunk>)
    ensures Flush(s) + [h] + hs == Flush(s) + ([h] + hs)
  {
  }

  /** Parsing a rendered diff gives one hunk per group, with its ranges intact. */
  lemma {:induction false} ParsedDiff(script: seq<Edit>)
    ensures ParsedHunks(UnifiedDiff(script)) == HunksOf(Groups(script, 0, 0), 0)
  {
    var gs := Groups(script, 0, 0);
    var init := ParseState([], None, 0);
    if gs != [] {
      var names := ["--- ", "+++ "];
      ParseConcat(init, names, RenderGroups(gs));
      assert names[1..] == ["+++ "] && names[1..][1..] == [];
      assert "--- "[..3] == "---" && "+++ "[..3] == "+++";
      assert ParseLines(init, names) == init;
      ParseGroups(init, gs);
    }
  }

  // ----- Where the groups lie -----

  lemma HunkTailStops(s: seq<Edit>)
    ensures HunkTail(s) < |s| ==> s[HunkTail(s)].Keep?
    decreases |s|
  {
    if s != [] {
      var k := LeadingKeeps(s);
      if !s[0].Keep? {
        HunkTailStops(s[1..]);
      } else if k < |s| && k <= 2 * CONTEXT {
        HunkTailStops(s[k..]);
      } else if CONTEXT < k {
        assert s[..k][CONTEXT].Keep?;
      }
    }
  }

  /** A hunk that stops before the end carries context. */
  lemma HunkTailHasContext(s: seq<Edit>)
    requires HunkTail(s) < |s|
    ensures exists i :: 0 <= i < HunkTail(s) && s[i].Keep?
    decreases |s|
  {
    if s[0].Keep? {
      assert s[0].Keep? && HunkTail(s) > 0;
    } else {
      HunkTailHasContext(s[1..]);
      var i :| 0 <= i < HunkTail(s[1..]) && s[1..][i].Keep?;
      assert s[i + 1].Keep?;
    }
  }

  lemma OldOfEmpty(s: seq<Edit>)
    ensures OldOf(s) == [] <==> forall i :: 0 <= i < |s| ==> s[i].Ins?
  {
    if s != [] {
      OldOfEmpty(s[1..]);
      if forall i :: 0 <= i < |s[1..]| ==> s[1..][i].Ins? {
        assert forall i :: 1 <= i < |s| ==> s[i] == s[1..][i - 1];
      }
    }
  }

  /** Only the hunk of an empty file has an empty old range. */
  lemma FirstHunkHasOld(s: seq<Edit>)
    requires HunkLength(s) > 0 && OldOf(FirstHunk(s)) == []
    ensures OldOf(s) == [] && GapLength(s) == 0
  {
    var h := FirstHunk(s);
    OldOfEmpty(h);
    if LeadingKeeps(s) > 0 {
      LeadingKeepInHunk(s);
    }
    assert s[0..] == s;
    ContextInHunk(s);
    assert h == s;
  }

  lemma LeadingKeepInHunk(s: seq<Edit>)
    requires HunkLength(s) > 0 && LeadingKeeps(s) > 0
    ensures FirstHunk(s)[0].Keep?
  {
    var k := LeadingKeeps(s);
    assert FirstHunk(s)[0] == s[..k][GapLength(s)];
  }

  lemma ContextInHunk(s: seq<Edit>)
    requires HunkLength(s) > 0 && LeadingKeeps(s) == 0
    ensures HunkTail(s) == |s| || exists i :: 0 <= i < |FirstHunk(s)| && FirstHunk(s)[i].Keep?
  {
    assert s[0..] == s;
    if HunkTail(s) < |s| {
      HunkTailHasContext(s);
      var i :| 0 <= i < HunkTail(s) && s[i].Keep?;
      assert FirstHunk(s)[i].Keep?;
    }
  }

  lemma AfterHunkStartsWithKeep(s: seq<Edit>)
    requires HunkLength(s) > 0
    ensures AfterHunk(s) == [] || AfterHunk(s)[0].Keep?
  {
    var k := LeadingKeeps(s);
    HunkTailStops(s[k..]);
    if AfterHunk(s) != [] {
      assert AfterHunk(s)[0] == s[k..][HunkTail(s[k..])];
    }
  }

  // ----- The reviewed text -----

  function WithStatus(hs: seq<Hunk>, rejected: set<nat>): seq<Hunk> {
    if hs == [] then [] else [Verdict(hs[0], rejected)] + WithStatus(hs[1..], rejected)
  }

  /** The script with each hunk resolved by its verdict: rejected keeps the old side, accepted takes the new. */
  function Merged(s: seq<Edit>, rejected: set<nat>, index: nat): Lines
    decreases |s|
  {
    if HunkLength(s) == 0 then OldOf(s)
    else
      OldOf(Gap(s))
        + (if index in rejected then OldOf(FirstHunk(s)) else NewOf(Visible(FirstHunk(s))))
        + Merged(AfterHunk(s), rejected, index + 1)
  }

  function ReviewedHunks(s: seq<Edit>, oldPos: nat, newPos: nat, rejected: set<nat>, index: nat): seq<Hunk> {
    WithStatus(HunksOf(Groups(s, oldPos, newPos), index), rejected)
  }

  function FirstGroup(s: seq<Edit>, oldPos: nat, newPos: nat): Group {
    Group(oldPos + GapLength(s), newPos + GapLength(s), FirstHunk(s))
  }

  function Verdict(h: Hunk, rejected: set<nat>): Hunk {
    h.(status := if h.index in rejected then Rejected else Pending)
  }

  lemma HunksCons(g: Group, gs: seq<Group>, rejected: set<nat>, index: nat)
    ensures WithStatus(HunksOf([g] + gs, index), rejected) ==
      [Verdict(HunkOf(g, index), rejected)] + WithStatus(HunksOf(gs, index + 1), rejected)
  {
    assert ([g] + gs)[1..] == gs;
    var h, hs := HunkOf(g, index), HunksOf(gs, index + 1);
    assert ([h] + hs)[1..] == hs;
  }

  /** Strictly increasing starts, all beyond `low`. */
  predicate Above(low: nat, hs: seq<Hunk>) {
    StrictlySorted(hs) && forall h <- hs :: h.oldStart > low
  }

  function FirstReviewed(s: seq<Edit>, oldPos: nat, newPos: nat, rejected: set<nat>, index: nat): Hunk {
    Verdict(HunkOf(FirstGroup(s, oldPos, newPos), index), rejected)
  }

  function RestReviewed(s: seq<Edit>, oldPos: nat, newPos: nat, rejected: set<nat>, index: nat): seq<Hunk> {
    ReviewedHunks(AfterHunk(s), oldPos + GapLength(s) + |OldOf(FirstHunk(s))|,
                  newPos + GapLength(s) + |NewOf(FirstHunk(s))|, rejected, index + 1)
  }

  lemma ReviewedStep(s: seq<Edit>, oldPos: nat, newPos: nat, rejected: set<nat>, index: nat)
    requires HunkLength(s) > 0
    ensures ReviewedHunks(s, oldPos, newPos, rejected, index) ==
      [FirstReviewed(s, oldPos, newPos, rejected, index)] + RestReviewed(s, oldPos, newPos, rejected, index)
  {
    hide HunkOf, Verdict, OldOf, NewOf, LeadingKeeps, HunkTail, GapLength, WithStatus, HunksOf;
    var g := FirstGroup(s, oldPos, newPos);
    HunksCons(g, Groups(AfterHunk(s), g.oldPos + |OldOf(g.edits)|, g.newPos + |NewOf(g.edits)|), rejected, index);
  }

  lemma FirstReviewedFacts(s: seq<Edit>, oldPos: nat, newPos: nat, rejected: set<nat>, index: nat)
    requires OldOf(FirstHunk(s)) != [] || oldPos + GapLength(s) == 0
    ensures var h := FirstReviewed(s, oldPos, newPos, rejected, index);
      && Start0(h) == oldPos + GapLength(s)
      && h.oldLen == |OldOf(FirstHunk(s))|
      && h.newLines == NewOf(Visible(FirstHunk(s)))
      && (h.status.Rejected? <==> index in rejected)
      && (h.oldLen > 0 ==> h.oldStart == Start0(h) + 1)
  {
  }

  lemma AboveCons(low: nat, h: Hunk, mid: nat, tail: seq<Hunk>)
    requires low < h.oldStart <= mid && Above(mid, tail)
    ensures Above(low, [h] + tail)
  {
    assert ([h] + tail)[1..] == tail;
  }

  /** The hunks lie in order from line `cursor` on, and replacing them turns `rest` into `merged`. */
  predicate Placed(cursor: nat, rest: Lines, hs: seq<Hunk>, merged: Lines) {
    && InOrder(|rest|, cursor, hs)
    && Replaced(rest, cursor, hs) == merged
    && (if rest == [] && cursor == 0 then |hs| <= 1 else Above(cursor, hs))
  }

  lemma PlacedCons(cursor: nat, gap: Lines, hunk: Lines, rest: Lines, h: Hunk, tail: seq<Hunk>, merged: Lines)
    requires Start0(h) == cursor + |gap| && h.oldLen == |hunk|
    requires Placed(cursor + |gap| + |hunk|, rest, tail, merged)
    requires if hunk == [] then cursor == 0 && gap == rest == [] && tail == [] else h.oldStart == Start0(h) + 1
    ensures Placed(cursor, gap + hunk + rest, [h] + tail,
                   gap + (if h.status.Rejected? then hunk else h.newLines) + merged)
  {
    var all := gap + hunk + rest;
    var to := |gap| + |hunk|;
    assert ([h] + tail)[1..] == tail;
    assert all[..|gap|] == gap && all[|gap|..to] == hunk && all[to..] == rest;
    if hunk != [] {
      AboveCons(cursor, h, cursor + to, tail);
    }
  }

  lemma NoHunkReview(cursor: nat, s: seq<Edit>, newPos: nat, rejected: set<nat>, index: nat)
    requires HunkLength(s) == 0
    ensures Placed(cursor, OldOf(s), ReviewedHunks(s, cursor, newPos, rejected, index), Merged(s, rejected, index))
  {
  }

  lemma EmptyOldRange(cursor: nat, s: seq<Edit>, newPos: nat, rejected: set<nat>, index: nat)
    requires cursor == 0 || s == [] || s[0].Keep?
    requires HunkLength(s) > 0 && OldOf(FirstHunk(s)) == []
    ensures OldOf(Gap(s)) == OldOf(AfterHunk(s)) == [] && cursor == GapLength(s) == 0
    ensures RestReviewed(s, cursor, newPos, rejected, index) == []
  {
    FirstHunkHasOld(s);
    SplitAtHunk(s);
    AfterHunkStartsWithKeep(s);
    KeepHasOld(AfterHunk(s));
  }

  lemma {:induction false} MergedIsReplaced(cursor: nat, s: seq<Edit>, newPos: nat, rejected: set<nat>, index: nat)
    requires cursor == 0 || s == [] || s[0].Keep?
    ensures Placed(cursor, OldOf(s), ReviewedHunks(s, cursor, newPos, rejected, index), Merged(s, rejected, index))
    decreases |s|
  {
    hide FirstReviewed, ReviewedHunks, HunkLength, GapLength, FirstHunk, AfterHunk, Gap, Start0, Visible, Placed, AllKeeps, OldOf, NewOf;
    SplitAtHunk(s);
    if HunkLength(s) == 0 {
      NoHunkReview(cursor, s, newPos, rejected, index);
    } else {
      var gap, hunk, rest := OldOf(Gap(s)), OldOf(FirstHunk(s)), AfterHunk(s);
      AfterHunkStartsWithKeep(s);
      MergedIsReplaced(cursor + |gap| + |hunk|, rest, newPos + GapLength(s) + |NewOf(FirstHunk(s))|, rejected, index + 1);
      ReviewedStep(s, cursor, newPos, rejected, index);
      var h := FirstReviewed(s, cursor, newPos, rejected, index);
      var tail := RestReviewed(s, cursor, newPos, rejected, index);
      if hunk == [] {
        EmptyOldRange(cursor, s, newPos, rejected, index);
      }
      FirstReviewedFacts(s, cursor, newPos, rejected, index);
      PlacedCons(cursor, gap, hunk, OldOf(rest), h, tail, Merged(rest, rejected, index + 1));
    }
  }

  lemma KeepHasOld(s: seq<Edit>)
    requires s == [] || s[0].Keep?
    requires OldOf(s) == []
    ensures s == [] && HunkLength(s) == 0
  {
  }

  lemma SortedIsDistinct(hs: seq<Hunk>)
    requires StrictlySorted(hs)
    ensures DistinctStarts(hs) && SortByStart(hs) == hs
  {
    if hs != [] {
      SortedIsDistinct(hs[1..]);
      forall i, j | 0 <= i < j < |hs| ensures hs[i].oldStart != hs[j].oldStart {
        if i == 0 {
          assert hs[j] in hs[1..];
        } else {
          assert hs[i] == hs[1..][i - 1] && hs[j] == hs[1..][j - 1];
        }
      }
      if hs[1..] != [] {
        assert hs[1] in hs[1..];
      }
    }
  }

  /** For every script, every set of rejected hunks and every listing order, the splice loop yields the old lines
      with exactly the accepted hunks applied. */
  lemma {:induction false} ReviewedText(script: seq<Edit>, rejected: set<nat>, listed: seq<Hunk>)
    requires multiset(listed) == multiset(WithStatus(ParsedHunks(UnifiedDiff(script)), rejected))
    ensures SpliceFrom(OldOf(script), 0, SortByStart(listed)) == Merged(script, rejected, 0)
  {
    ParsedDiff(script);
    var hs := ReviewedHunks(script, 0, 0, rejected, 0);
    var base := OldOf(script);
    MergedIsReplaced(0, script, 0, rejected, 0);
    if base == [] && |hs| == 1 {
      assert hs[1..] == [];
    }
    assert StrictlySorted(hs);
    SortedIsDistinct(hs);
    OrderIrrelevant(base, hs, listed);
    SpliceIsReplacement(base, hs);
  }

  /** Rejecting every hunk gives the old lines back. */
  lemma {:induction false} RejectAll(s: seq<Edit>, rejected: set<nat>, index: nat)
    requires forall i :: index <= i < index + HunkCount(s) ==> i in rejected
    ensures Merged(s, rejected, index) == OldOf(s)
    decreases |s|
  {
    if HunkLength(s) > 0 {
      SplitAtHunk(s);
      RejectAll(AfterHunk(s), rejected, index + 1);
    }
  }

  lemma VisibleConcat(a: seq<Edit>, b: seq<Edit>)
    ensures Visible(a + b) == Visible(a) + Visible(b)
  {
    if a == [] {
      assert a + b == b;
    } else {
      assert (a + b)[1..] == a[1..] + b;
      VisibleConcat(a[1..], b);
    }
  }

  lemma VisibleKeeps(s: seq<Edit>)
    requires AllKeeps(s)
    ensures Visible(s) == s
  {
  }

  lemma {:induction false} AcceptAll(s: seq<Edit>, index: nat)
    ensures Merged(s, {}, index) == NewOf(Visible(s))
    decreases |s|
  {
    SplitAtHunk(s);
    VisibleKeeps(Gap(s));
    if HunkLength(s) > 0 {
      AcceptAll(AfterHunk(s), index + 1);
      VisibleConcat(Gap(s), FirstHunk(s));
      VisibleConcat(Gap(s) + FirstHunk(s), AfterHunk(s));
      NewOfConcat(Visible(Gap(s)), Visible(FirstHunk(s)));
      NewOfConcat(Visible(Gap(s)) + Visible(FirstHunk(s)), Visible(AfterHunk(s)));
    }
  }

  predicate InsertsPlusPlus(s: seq<Edit>) {
    exists e <- s :: e.Ins? && StartsWith(e.line, "++")
  }

  lemma {:induction false} VisibleNewLines(s: seq<Edit>)
    ensures |NewOf(Visible(s))| <= |NewOf(s)|
    ensures |NewOf(Visible(s))| < |NewOf(s)| <==> InsertsPlusPlus(s)
    ensures !InsertsPlusPlus(s) ==> NewOf(Visible(s)) == NewOf(s)
  {
    if s != [] {
      VisibleNewLines(s[1..]);
      assert s == [s[0]] + s[1..];
      assert InsertsPlusPlus(s) <==> (s[0].Ins? && StartsWith(s[0].line, "++")) || InsertsPlusPlus(s[1..]);
      ConsFacts(s[0], Visible(s[1..]));
      assert [] + Visible(s[1..]) == Visible(s[1..]);
    }
  }

  /** With every hunk accepted the merged script is the new text exactly when no inserted line starts with "++". */
  lemma {:induction false} AcceptAllIsExact(script: seq<Edit>)
    ensures Merged(script, {}, 0) == NewOf(script) <==> !InsertsPlusPlus(script)
  {
    hide InsertsPlusPlus, Merged;
    AcceptAll(script, 0);
    VisibleNewLines(script);
  }

  /** Accepting every hunk reproduces the new lines exactly when no inserted line starts with "++". */
  lemma {:induction false} AcceptAllReproducesNew(script: seq<Edit>, listed: seq<Hunk>)
    requires multiset(listed) == multiset(ParsedHunks(UnifiedDiff(script)))
    ensures SpliceFrom(OldOf(script), 0, SortByStart(listed)) == NewOf(Visible(script))
    ensures SpliceFrom(OldOf(script), 0, SortByStart(listed)) == NewOf(script) <==> !InsertsPlusPlus(script)
  {
    PendingHunks(Groups(script, 0, 0), 0);
    ParsedDiff(script);
    ReviewedText(script, {}, listed);
    AcceptAll(script, 0);
    AcceptAllIsExact(script);
  }

  lemma PendingHunks(gs: seq<Group>, index: nat)
    ensures WithStatus(HunksOf(gs, index), {}) == HunksOf(gs, index)
  {
    if gs != [] {
      PendingHunks(gs[1..], index + 1);
      assert HunksOf(gs, index)[1..] == HunksOf(gs[1..], index + 1);
    }
  }

  /** The round trip fails for a file that gains the one line "++x": the parsed hunk has no new line. */
  lemma {:induction false} PlusPlusIsLost()
    ensures var script := [Ins("++x")];
      && NewOf(script) == ["++x"]
      && SpliceFrom(OldOf(script), 0, SortByStart(ParsedHunks(UnifiedDiff(script)))) == []
  {
    var script := [Ins("++x")];
    assert script[1..] == [];
    assert "++x"[..2] == "++";
    AcceptAllReproducesNew(script, ParsedHunks(UnifiedDiff(script)));
    assert Visible(script) == [];
  }
}
