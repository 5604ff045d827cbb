// Which lines of a diff are shown, and which changes share a hunk, told by their places in the edit script. The context is
// the three lines that unified diffs have by default.
module HunkContext {
  import opened EditScripts

  /** From a on, n edits without a change. */
  predicate QuietFrom(s: seq<Edit>, a: nat, n: nat) {
    a + n <= |s| && forall i :: a <= i < a + n ==> s[i].Keep?
  }

  /** Between the changes at p and q no seven lines in a row are kept. */
  predicate Close(s: seq<Edit>, p: nat, q: nat)
    requires q < |s|
  {
    forall a: nat :: p < a && a + 7 <= q ==> !QuietFrom(s, a, 7)
  }

  /** Where hunk `n` begins and ends. */
  function Span(s: seq<Edit>, n: nat): (r: (nat, nat))
    requires n < HunkCount(s)
    ensures r.0 < r.1 <= |s|
    decreases |s|
  {
    if n == 0 then (GapLength(s), GapLength(s) + HunkLength(s))
    else
      var (a, b) := Span(AfterHunk(s), n - 1);
      (GapLength(s) + HunkLength(s) + a, GapLength(s) + HunkLength(s) + b)
  }

  lemma GroupsStep(s: seq<Edit>, oldPos: nat, newPos: nat)
    requires HunkCount(s) > 0
    ensures var g := Group(oldPos + GapLength(s), newPos + GapLength(s), FirstHunk(s));
      Groups(s, oldPos, newPos) ==
        [g] + Groups(AfterHunk(s), g.oldPos + |OldOf(g.edits)|, g.newPos + |NewOf(g.edits)|)
  {
    hide GapLength, HunkLength, OldOf, NewOf, FirstHunk, AfterHunk, LeadingKeeps;
  }

  lemma SpanStep(s: seq<Edit>, n: nat)
    requires 0 < n < HunkCount(s)
    ensures var rest := AfterHunk(s);
      && |rest| < |s| && n - 1 < HunkCount(rest)
      && s[Span(s, n).0..Span(s, n).1] == rest[Span(rest, n - 1).0..Span(rest, n - 1).1]
  {
    hide GapLength, HunkLength;
    var rest, cut := AfterHunk(s), GapLength(s) + HunkLength(s);
    var (a, b) := Span(rest, n - 1);
    assert rest[a..b] == s[cut + a..cut + b];
  }

  /** The edits of hunk `n` are those of its span. */
  lemma {:induction false} SpanIsGroup(s: seq<Edit>, oldPos: nat, newPos: nat, n: nat)
    requires n < HunkCount(s)
    ensures Groups(s, oldPos, newPos)[n].edits == s[Span(s, n).0..Span(s, n).1]
    decreases |s|
  {
    hide OldOf, NewOf, GapLength, HunkLength, Groups, AfterHunk, HunkCount;
    GroupsStep(s, oldPos, newPos);
    if n > 0 {
      var g := Group(oldPos + GapLength(s), newPos + GapLength(s), FirstHunk(s));
      SpanStep(s, n);
      SpanIsGroup(AfterHunk(s), g.oldPos + |OldOf(g.edits)|, g.newPos + |NewOf(g.edits)|, n - 1);
    }
  }

  // ----- The first hunk -----

  /** The hunk that has reached the change at the start of `s` goes on to its last change `l`, with no seven kept lines in a
      row before that, and ends with up to three kept lines; behind it the text ends or at least seven lines are kept. */
  predicate TailEnds(s: seq<Edit>, l: nat) {
    && l < HunkTail(s) <= l + 4 && !s[l].Keep?
    && Close(s, 0, l)
    && (|s| < l + 4 ==> QuietFrom(s, l + 1, |s| - l - 1) && HunkTail(s) == |s|)
    && (|s| >= l + 4 ==> HunkTail(s) == l + 4 && QuietFrom(s, l + 1, 3))
    && (QuietFrom(s, l + 1, |s| - l - 1) || QuietFrom(s, l + 1, 7))
  }

  lemma QuietShift(s: seq<Edit>, k: nat, a: nat, n: nat)
    requires k <= |s|
    ensures QuietFrom(s[k..], a, n) <==> QuietFrom(s, k + a, n)
  {
    if QuietFrom(s[k..], a, n) {
      assert forall i :: k + a <= i < k + a + n ==> s[i] == s[k..][i - k];
    }
    if QuietFrom(s, k + a, n) {
      assert forall i :: a <= i < a + n ==> s[k..][i] == s[i + k];
    }
  }

  lemma LeadingQuiet(s: seq<Edit>)
    ensures QuietFrom(s, 0, LeadingKeeps(s))
  {
    var k := LeadingKeeps(s);
    assert forall i :: 0 <= i < k ==> s[i] == s[..k][i];
  }

  /** The same, seen from k edits earlier, all but the first of them kept. */
  lemma TailShift(s: seq<Edit>, k: nat, l: nat)
    requires 0 < k <= 7 && k < |s| && !s[0].Keep? && QuietFrom(s, 1, k - 1) && TailEnds(s[k..], l) && !s[k].Keep?
    requires HunkTail(s) == k + HunkTail(s[k..])
    ensures TailEnds(s, k + l)
  {
    hide HunkTail;
    var t := s[k..];
    assert t[l] == s[k + l];
    QuietShift(s, k, l + 1, 7);
    QuietShift(s, k, l + 1, 3);
    if l + 1 <= |t| {
      QuietShift(s, k, l + 1, |t| - l - 1);
    }
    forall a: nat | 0 < a && a + 7 <= k + l ensures !QuietFrom(s, a, 7) {
      if a <= k {
        assert !s[k].Keep?;
      } else {
        QuietShift(s, k, a - k, 7);
      }
    }
  }

  lemma {:induction false} TailFacts(s: seq<Edit>) returns (l: nat)
    requires s != [] && !s[0].Keep?
    ensures TailEnds(s, l)
    decreases |s|
  {
    var t := s[1..];
    var k := LeadingKeeps(t);
    LeadingQuiet(t);
    QuietShift(s, 1, 0, k);
    if k == |t| || k > 6 {
      l := 0;
      QuietParts(s, 1, k);
    } else {
      assert t[k..] == s[k + 1..] && t[k] == s[k + 1];
      var m := TailFacts(s[k + 1..]);
      TailShift(s, k + 1, m);
      l := k + 1 + m;
    }
  }

  lemma QuietParts(s: seq<Edit>, a: nat, n: nat)
    requires QuietFrom(s, a, n)
    ensures forall m: nat :: m <= n ==> QuietFrom(s, a, m)
  {
  }

  /** The first hunk: `f` is its first change and the first of all, `l` its last one. */
  predicate FirstSpan(s: seq<Edit>, f: nat, l: nat) {
    var (a, b) := (GapLength(s), GapLength(s) + HunkLength(s));
    && a <= f <= l < b <= |s| && !s[f].Keep? && !s[l].Keep?
    && QuietFrom(s, 0, f) && a == (if f >= 3 then f - 3 else 0)
    && Close(s, f, l)
    && b == (if |s| >= l + 4 then l + 4 else |s|) && QuietFrom(s, l + 1, b - l - 1)
    && (QuietFrom(s, l + 1, |s| - l - 1) || QuietFrom(s, l + 1, 7))
  }

  lemma FirstHunkFacts(s: seq<Edit>) returns (f: nat, l: nat)
    requires HunkCount(s) > 0
    ensures FirstSpan(s, f, l)
  {
    f := LeadingKeeps(s);
    LeadingQuiet(s);
    var t := s[f..];
    var m := TailFacts(t);
    l := f + m;
    hide HunkTail, LeadingKeeps;
    assert t[m] == s[l];
    QuietShift(s, f, m + 1, 7);
    QuietShift(s, f, m + 1, 3);
    QuietShift(s, f, m + 1, |t| - m - 1);
    forall a: nat | f < a && a + 7 <= l ensures !QuietFrom(s, a, 7) {
      QuietShift(s, f, a - f, 7);
    }
  }

  // ----- Which edits are shown -----

  /** Some hunk shows the edit at p. */
  predicate Shown(s: seq<Edit>, p: nat) {
    exists n :: 0 <= n < HunkCount(s) && Span(s, n).0 <= p < Span(s, n).1
  }

  /** A change lies at most three edits away. */
  predicate NearChange(s: seq<Edit>, p: nat) {
    exists q :: 0 <= q < |s| && p - 3 <= q <= p + 3 && !s[q].Keep?
  }

  lemma ShownLater(s: seq<Edit>, p: nat)
    requires HunkCount(s) > 0
    ensures var cut := GapLength(s) + HunkLength(s);
      Shown(s, p) <==> (GapLength(s) <= p < cut || (p >= cut && Shown(AfterHunk(s), p - cut)))
  {
    hide GapLength, HunkLength;
    var cut := GapLength(s) + HunkLength(s);
    var rest := AfterHunk(s);
    assert Span(s, 0) == (GapLength(s), cut);
    if Shown(s, p) && !(GapLength(s) <= p < cut) {
      var n :| 0 <= n < HunkCount(s) && Span(s, n).0 <= p < Span(s, n).1;
      assert Span(rest, n - 1).0 <= p - cut < Span(rest, n - 1).1;
    }
    if p >= cut && Shown(rest, p - cut) {
      var n :| 0 <= n < HunkCount(rest) && Span(rest, n).0 <= p - cut < Span(rest, n).1;
      assert Span(s, n + 1).0 <= p < Span(s, n + 1).1;
    }
  }

  lemma InsideIsNear(s: seq<Edit>, f: nat, l: nat, p: nat)
    requires FirstSpan(s, f, l) && GapLength(s) <= p < GapLength(s) + HunkLength(s)
    ensures NearChange(s, p)
  {
    hide GapLength, HunkLength;
    if p <= f + 3 {
      assert !s[f].Keep?;
    } else if p + 3 >= l {
      assert !s[l].Keep?;
    } else {
      assert !QuietFrom(s, p - 3, 7);
    }
  }

  lemma NearAfter(s: seq<Edit>, f: nat, l: nat, p: nat)
    requires FirstSpan(s, f, l) && GapLength(s) + HunkLength(s) <= p < |s|
    ensures var cut := GapLength(s) + HunkLength(s);
      NearChange(s, p) <==> NearChange(s[cut..], p - cut)
  {
    hide GapLength, HunkLength;
    var cut := GapLength(s) + HunkLength(s);
    if NearChange(s, p) {
      var q :| 0 <= q < |s| && p - 3 <= q <= p + 3 && !s[q].Keep?;
      assert q >= cut;
      assert s[cut..][q - cut] == s[q];
    }
    if NearChange(s[cut..], p - cut) {
      var q :| 0 <= q < |s[cut..]| && p - cut - 3 <= q <= p - cut + 3 && !s[cut..][q].Keep?;
      assert s[cut + q] == s[cut..][q];
    }
  }

  /** The hunks show an edit if and only if it is a change or has one at most three edits away. */
  lemma {:induction false} ShownIff(s: seq<Edit>, p: nat)
    requires p < |s|
    ensures Shown(s, p) <==> NearChange(s, p)
    decreases |s|
  {
    hide HunkLength, GapLength, NearChange, Shown, FirstSpan;
    if HunkCount(s) == 0 {
      NothingShown(s, p);
    } else {
      var f, l := FirstHunkFacts(s);
      var cut := GapLength(s) + HunkLength(s);
      ShownLater(s, p);
      if GapLength(s) <= p < cut {
        InsideIsNear(s, f, l, p);
      } else if p < cut {
        BeforeIsFar(s, f, l, p);
      } else {
        NearAfter(s, f, l, p);
        ShownIff(AfterHunk(s), p - cut);
      }
    }
  }

  lemma NothingShown(s: seq<Edit>, p: nat)
    requires HunkCount(s) == 0
    ensures !Shown(s, p) && !NearChange(s, p)
  {
    LeadingQuiet(s);
  }

  lemma BeforeIsFar(s: seq<Edit>, f: nat, l: nat, p: nat)
    requires FirstSpan(s, f, l) && p < GapLength(s)
    ensures !NearChange(s, p)
  {
    hide GapLength, HunkLength;
  }

  // ----- Which changes share a hunk -----

  predicate Together(s: seq<Edit>, p: nat, q: nat) {
    exists n :: 0 <= n < HunkCount(s) && Span(s, n).0 <= p < q < Span(s, n).1
  }

  lemma TogetherLater(s: seq<Edit>, p: nat, q: nat)
    requires HunkCount(s) > 0
    ensures var cut := GapLength(s) + HunkLength(s);
      Together(s, p, q) <==>
        (GapLength(s) <= p < q < cut || (cut <= p < q && Together(AfterHunk(s), p - cut, q - cut)))
  {
    hide GapLength, HunkLength;
    var cut := GapLength(s) + HunkLength(s);
    var rest := AfterHunk(s);
    assert Span(s, 0) == (GapLength(s), cut);
    if Together(s, p, q) && !(GapLength(s) <= p < q < cut) {
      var n :| 0 <= n < HunkCount(s) && Span(s, n).0 <= p < q < Span(s, n).1;
      assert Span(rest, n - 1).0 <= p - cut < q - cut < Span(rest, n - 1).1;
    }
    if cut <= p < q && Together(rest, p - cut, q - cut) {
      var n :| 0 <= n < HunkCount(rest) && Span(rest, n).0 <= p - cut < q - cut < Span(rest, n).1;
      assert Span(s, n + 1).0 <= p < q < Span(s, n + 1).1;
    }
  }

  lemma CloseShift(s: seq<Edit>, k: nat, p: nat, q: nat)
    requires k <= p < q < |s|
    ensures Close(s[k..], p - k, q - k) <==> Close(s, p, q)
  {
    if Close(s[k..], p - k, q - k) {
      forall a: nat | p < a && a + 7 <= q ensures !QuietFrom(s, a, 7) {
        QuietShift(s, k, a - k, 7);
      }
    }
    if Close(s, p, q) {
      forall a: nat | p - k < a && a + 7 <= q - k ensures !QuietFrom(s[k..], a, 7) {
        QuietShift(s, k, a, 7);
      }
    }
  }

  lemma ChangesOfFirst(s: seq<Edit>, f: nat, l: nat, p: nat)
    requires FirstSpan(s, f, l) && p < |s| && !s[p].Keep?
    ensures GapLength(s) <= p && l < |s| && Close(s, f, l)
    ensures p < GapLength(s) + HunkLength(s) ==> f <= p <= l
    ensures p >= GapLength(s) + HunkLength(s) ==> p >= l + 8 && QuietFrom(s, l + 1, 7)
  {
    hide GapLength, HunkLength;
  }

  /** Two changes are in the same hunk if and only if nowhere between them seven lines in a row are kept. */
  lemma {:induction false} TogetherIff(s: seq<Edit>, p: nat, q: nat)
    requires p < q < |s| && !s[p].Keep? && !s[q].Keep?
    ensures Together(s, p, q) <==> Close(s, p, q)
    decreases |s|
  {
    hide HunkLength, GapLength, Together, Close, QuietFrom, FirstSpan;
    ChangeMakesHunk(s, p);
    var f, l := FirstHunkFacts(s);
    var cut := GapLength(s) + HunkLength(s);
    TogetherLater(s, p, q);
    ChangesOfFirst(s, f, l, p);
    ChangesOfFirst(s, f, l, q);
    if q < cut {
      CloseInside(s, f, l, p, q);
    } else if p < cut {
      FarApart(s, p, q, l + 1);
    } else {
      CloseShift(s, cut, p, q);
      assert s[cut..][p - cut] == s[p] && s[cut..][q - cut] == s[q];
      TogetherIff(AfterHunk(s), p - cut, q - cut);
    }
  }

  lemma ChangeMakesHunk(s: seq<Edit>, p: nat)
    requires p < |s| && !s[p].Keep?
    ensures HunkCount(s) > 0
  {
    LeadingQuiet(s);
  }

  lemma CloseInside(s: seq<Edit>, f: nat, l: nat, p: nat, q: nat)
    requires l < |s| && Close(s, f, l) && f <= p < q <= l
    ensures Close(s, p, q)
  {
  }

  lemma FarApart(s: seq<Edit>, p: nat, q: nat, a: nat)
    requires p < a && a + 7 <= q < |s| && QuietFrom(s, a, 7)
    ensures !Close(s, p, q)
  {
  }
}
