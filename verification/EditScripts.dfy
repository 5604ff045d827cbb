// Line edit scripts and the unified diff text rendered from them. The algorithm that chooses the script
// is left open: every script that turns the old lines into the new ones is covered.
module EditScripts {
  import opened Decimal

  type Lines = seq<string>

  datatype Edit = Keep(line: string) | Del(line: string) | Ins(line: string)

  /** Lines of context around a change. */
  const CONTEXT := 3

  function OldOf(s: seq<Edit>): Lines {
    if s == [] then [] else (if s[0].Ins? then [] else [s[0].line]) + OldOf(s[1..])
  }

  function NewOf(s: seq<Edit>): Lines {
    if s == [] then [] else (if s[0].Del? then [] else [s[0].line]) + NewOf(s[1..])
  }

  predicate AllKeeps(s: seq<Edit>) {
    forall i :: 0 <= i < |s| ==> s[i].Keep?
  }

  lemma OldOfConcat(a: seq<Edit>, b: seq<Edit>)
    ensures OldOf(a + b) == OldOf(a) + OldOf(b)
  {
    if a == [] {
      assert a + b == b;
    } else {
      assert (a + b)[1..] == a[1..] + b;
      OldOfConcat(a[1..], b);
    }
  }

  lemma NewOfConcat(a: seq<Edit>, b: seq<Edit>)
    ensures NewOf(a + b) == NewOf(a) + NewOf(b)
  {
    if a == [] {
      assert a + b == b;
    } else {
      assert (a + b)[1..] == a[1..] + b;
      NewOfConcat(a[1..], b);
    }
  }

  lemma KeepsAgree(s: seq<Edit>)
    requires AllKeeps(s)
    ensures OldOf(s) == NewOf(s) && |OldOf(s)| == |s|
  {
  }

  lemma ConsFacts(e: Edit, s: seq<Edit>)
    ensures OldOf([e] + s) == (if e.Ins? then [] else [e.line]) + OldOf(s)
    ensures NewOf([e] + s) == (if e.Del? then [] else [e.line]) + NewOf(s)
    ensures EditLines([e] + s) == [EditLine(e)] + EditLines(s)
  {
    assert ([e] + s)[1..] == s;
  }

  // ----- Grouping into hunks with three lines of context -----

  function LeadingKeeps(s: seq<Edit>): (k: nat)
    ensures k <= |s| && AllKeeps(s[..k])
    ensures k < |s| ==> !s[k].Keep?
  {
    if s == [] || !s[0].Keep? then 0
    else
      var m := LeadingKeeps(s[1..]);
      assert forall i :: 1 <= i < 1 + m ==> s[i] == s[1..][..m][i - 1];
      1 + m
  }

  /** How many edits of `s` still belong to a hunk that has reached the start of `s`. */
  function HunkTail(s: seq<Edit>): (n: nat)
    ensures n <= |s|
    ensures s != [] && !s[0].Keep? ==> n > 0
  {
    if s == [] then 0
    else if !s[0].Keep? then 1 + HunkTail(s[1..])
    else
      var k := LeadingKeeps(s);
      if k == |s| then (if k < CONTEXT then k else CONTEXT)
      else if k > 2 * CONTEXT then CONTEXT
      else k + HunkTail(s[k..])
  }

  /** A run of edits shown together; the positions are 0-based line offsets in the old and the new text. */
  datatype Group = Group(oldPos: nat, newPos: nat, edits: seq<Edit>)

  /** The context lines dropped before the next change, or all of `s` when no change is left. */
  function GapLength(s: seq<Edit>): (n: nat)
    ensures n <= |s| && AllKeeps(s[..n])
    ensures LeadingKeeps(s) < |s| ==> n < |s|
  {
    var k := LeadingKeeps(s);
    if k == |s| then k else if k > CONTEXT then k - CONTEXT else 0
  }

  /** The length of the hunk that starts right after the gap; 0 when no change is left. */
  function HunkLength(s: seq<Edit>): (n: nat)
    ensures GapLength(s) + n <= |s|
    ensures n > 0 <==> LeadingKeeps(s) < |s|
  {
    var k := LeadingKeeps(s);
    if k == |s| then 0 else k - GapLength(s) + HunkTail(s[k..])
  }

  function Gap(s: seq<Edit>): seq<Edit> {
    s[..GapLength(s)]
  }

  function FirstHunk(s: seq<Edit>): seq<Edit> {
    s[GapLength(s)..GapLength(s) + HunkLength(s)]
  }

  function AfterHunk(s: seq<Edit>): (r: seq<Edit>)
    ensures HunkLength(s) > 0 ==> |r| < |s|
  {
    s[GapLength(s) + HunkLength(s)..]
  }

  function HunkCount(s: seq<Edit>): nat
    decreases |s|
  {
    if HunkLength(s) == 0 then 0 else 1 + HunkCount(AfterHunk(s))
  }

  function Groups(s: seq<Edit>, oldPos: nat, newPos: nat): (gs: seq<Group>)
    ensures |gs| == HunkCount(s)
    decreases |s|
  {
    if HunkLength(s) == 0 then []
    else
      var g := Group(oldPos + GapLength(s), newPos + GapLength(s), FirstHunk(s));
      [g] + Groups(AfterHunk(s), g.oldPos + |OldOf(g.edits)|, g.newPos + |NewOf(g.edits)|)
  }

  lemma SplitAtHunk(s: seq<Edit>)
    ensures s == Gap(s) + FirstHunk(s) + AfterHunk(s)
    ensures OldOf(s) == OldOf(Gap(s)) + OldOf(FirstHunk(s)) + OldOf(AfterHunk(s))
    ensures NewOf(s) == NewOf(Gap(s)) + NewOf(FirstHunk(s)) + NewOf(AfterHunk(s))
    ensures OldOf(Gap(s)) == NewOf(Gap(s)) && |OldOf(Gap(s))| == GapLength(s)
    ensures HunkLength(s) == 0 ==> s == Gap(s)
  {
    assert s == Gap(s) + FirstHunk(s) + AfterHunk(s);
    OldOfConcat(Gap(s), FirstHunk(s));
    OldOfConcat(Gap(s) + FirstHunk(s), AfterHunk(s));
    NewOfConcat(Gap(s), FirstHunk(s));
    NewOfConcat(Gap(s) + FirstHunk(s), AfterHunk(s));
    KeepsAgree(Gap(s));
  }

  // ----- Rendering -----

  /** A header range "start,length": a length of 1 is omitted, an empty range names the preceding line. */
  function FormatRange(pos: nat, len: nat): string {
    if len == 1 then Format(pos + 1)
    else if len == 0 then Format(pos) + "," + Format(0)
    else Format(pos + 1) + "," + Format(len)
  }

  function FormatHeader(g: Group): string {
    "@@ -" + FormatRange(g.oldPos, |OldOf(g.edits)|) + " +" + FormatRange(g.newPos, |NewOf(g.edits)|) + " @@"
  }

  function EditLine(e: Edit): string {
    match e
    case Keep(l) => " " + l
    case Del(l) => "-" + l
    case Ins(l) => "+" + l
  }

  function EditLines(s: seq<Edit>): Lines {
    if s == [] then [] else [EditLine(s[0])] + EditLines(s[1..])
  }

  function RenderGroup(g: Group): Lines {
    [FormatHeader(g)] + EditLines(g.edits)
  }

  function RenderGroups(gs: seq<Group>): Lines {
    if gs == [] then [] else RenderGroup(gs[0]) + RenderGroups(gs[1..])
  }

  /** `difflib.unified_diff(..., lineterm="")` for the given edit script. */
  function UnifiedDiff(s: seq<Edit>): Lines {
    var gs := Groups(s, 0, 0);
    if gs == [] then [] else ["--- ", "+++ "] + RenderGroups(gs)
  }
}
