// Which file names a patch may hold (backend/services/agent/code_workspace.py, _safe_patch_filename), told by what
// stands between the slashes of a name.
module SafeNames {
  import opened PatchPayload
  import opened Strings
  import opened Wrappers

  predicate IsSlash(c: char) {
    c == '/' || c == '\\'
  }

  /** What stands between the slashes of a name, slashes of either kind. */
  function Segments(s: string): (r: seq<string>)
    ensures r != []
  {
    if s == "" then [""]
    else
      var rest := Segments(s[1..]);
      if IsSlash(s[0]) then [""] + rest else [[s[0]] + rest[0]] + rest[1..]
  }

  /** From place i to place j stands a whole segment. */
  predicate SegmentAt(s: string, i: nat, j: nat) {
    && i <= j <= |s|
    && (i == 0 || IsSlash(s[i - 1]))
    && (j == |s| || IsSlash(s[j]))
    && forall k :: i <= k < j ==> !IsSlash(s[k])
  }

  lemma {:induction false} SegmentPlace(s: string, n: nat) returns (i: nat, j: nat)
    requires n < |Segments(s)|
    ensures SegmentAt(s, i, j) && s[i..j] == Segments(s)[n]
    ensures (n == 0 <==> i == 0) && (n == |Segments(s)| - 1 <==> j == |s|)
  {
    if s == "" {
      i, j := 0, 0;
    } else if IsSlash(s[0]) && n == 0 {
      i, j := 0, 0;
    } else {
      var a, b := SegmentPlace(s[1..], if IsSlash(s[0]) then n - 1 else n);
      i, j := if IsSlash(s[0]) || n > 0 then a + 1 else 0, b + 1;
      assert forall k :: 0 < k < |s| ==> s[k] == s[1..][k - 1];
      assert s[i..j] == if i == 0 then [s[0]] + s[1..][a..b] else s[1..][a..b];
    }
  }

  lemma {:induction false} PlacedSegment(s: string, i: nat, j: nat)
    requires SegmentAt(s, i, j)
    ensures s[i..j] in Segments(s)
    ensures if i == 0 then s[i..j] == Segments(s)[0] else s[i..j] in Segments(s)[1..]
  {
    if s == "" || (i == 0 && j == 0) {
      assert s[i..j] == "";
    } else {
      var rest := Segments(s[1..]);
      assert forall k :: 0 < k < |s| ==> s[k] == s[1..][k - 1];
      if i == 0 {
        PlacedSegment(s[1..], 0, j - 1);
        assert s[0..j] == [s[0]] + s[1..][..j - 1];
      } else {
        PlacedSegment(s[1..], i - 1, j - 1);
        assert s[i..j] == s[1..][i - 1..j - 1];
        assert Segments(s)[1..] == if IsSlash(s[0]) then rest else rest[1..];
        assert i == 1 ==> IsSlash(s[0]);
        assert rest == [rest[0]] + rest[1..];
      }
    }
  }

  /** Places i and i + 1 hold a step up. */
  predicate StepAt(s: string, i: nat) {
    && i + 2 <= |s|
    && s[i] == s[i + 1] == '.'
    && (i == 0 || IsSlash(s[i - 1]))
    && (i + 2 == |s| || IsSlash(s[i + 2]))
  }

  lemma StepIff(s: string)
    ensures ".." in Segments(s) <==> exists i: nat :: StepAt(s, i)
  {
    if ".." in Segments(s) {
      var n :| 0 <= n < |Segments(s)| && Segments(s)[n] == "..";
      var i, j := SegmentPlace(s, n);
      assert s[i..j][0] == s[i] && s[i..j][1] == s[i + 1];
      assert StepAt(s, i);
    }
    if i: nat :| StepAt(s, i) {
      assert s[i..i + 2] == "..";
      PlacedSegment(s, i, i + 2);
    }
  }

  /** A step up is what the source looks for between slashes. */
  lemma StepIsClimb(f: string, i: nat)
    requires forall k :: 0 <= k < |f| ==> f[k] != '\\'
    requires i + 2 <= |f|
    ensures StepAt(f, i) <==> ("/" + f + "/")[i..][..4] == "/../"
  {
    var s, up := "/" + f + "/", "/../";
    assert s[i] == if i == 0 then '/' else f[i - 1];
    assert s[i + 3] == if i + 2 == |f| then '/' else f[i + 2];
    assert s[i..][..4] == [s[i], f[i], f[i + 1], s[i + 3]];
    assert up == ['/', '.', '.', '/'];
  }

  lemma ClimbsIff(f: string)
    requires forall k :: 0 <= k < |f| ==> f[k] != '\\'
    ensures Climbs(f) <==> ".." in Segments(f)
  {
    hide StartsWith, Contains, Segments, StepAt;
    StepIff(f);
    if i: nat :| StepAt(f, i) {
      StepInside(f, i);
      StepIsClimb(f, i);
      PartAt("/" + f + "/", "/../", i);
    }
    if Climbs(f) {
      if StartsWith(f, "../") {
        StartIsStep(f);
      } else {
        var i := ContainedAt("/" + f + "/", "/../");
        StepIsClimb(f, i);
      }
    }
  }

  lemma StepInside(f: string, i: nat)
    requires StepAt(f, i)
    ensures i + 2 <= |f|
  {
  }

  lemma PartAt(s: string, part: string, i: nat)
    requires i <= |s| - |part| && s[i..][..|part|] == part
    ensures Contains(s, part)
  {
  }

  lemma StartIsStep(f: string)
    requires StartsWith(f, "../")
    ensures StepAt(f, 0)
  {
    assert f[..3] == "../";
    assert f[0] == f[..3][0] && f[1] == f[..3][1] && f[2] == f[..3][2];
  }

  /** Turning the slashes and dropping the leading ones changes no step up. */
  lemma StepsStay(value: string, k: nat, f: string)
    requires k <= |value| && |f| == |value| - k
    requires forall i :: 0 <= i < k ==> IsSlash(value[i])
    requires forall i :: 0 <= i < |f| ==> f[i] == if IsSlash(value[k + i]) then '/' else value[k + i]
    ensures ".." in Segments(f) <==> ".." in Segments(value)
  {
    hide Segments;
    StepIff(f);
    StepIff(value);
    if i: nat :| StepAt(f, i) {
      assert StepAt(value, k + i);
    }
    if i: nat :| StepAt(value, i) {
      assert StepAt(f, i - k);
    }
  }

  lemma {:induction false} LeadingSlashes(s: string) returns (k: nat)
    ensures k <= |s| && DropLeadingSlashes(s) == s[k..]
    ensures (forall i :: 0 <= i < k ==> s[i] == '/') && (k < |s| ==> s[k] != '/')
  {
    k := 0;
    if s != [] && s[0] == '/' {
      var j := LeadingSlashes(s[1..]);
      k := j + 1;
      assert forall i :: 0 < i < |s| ==> s[i] == s[1..][i - 1];
    }
  }

  /**
   * A name is accepted if and only if it has more than slashes and no segment is a step up. It is handed out without its
   * leading slashes, with the others turned forward, and cut at 500 characters.
   */
  lemma {:induction false} AcceptedIff(value: string) returns (k: nat)
    ensures k <= |value| && forall i :: 0 <= i < k ==> IsSlash(value[i])
    ensures k < |value| ==> !IsSlash(value[k])
    ensures SafeFilename(value).Ok? <==> k < |value| && ".." !in Segments(value)
    ensures SafeFilename(value).Ok? ==>
      var f := SafeFilename(value).value;
      && |f| == (if |value| - k <= 500 then |value| - k else 500)
      && forall i :: 0 <= i < |f| ==> f[i] == if IsSlash(value[k + i]) then '/' else value[k + i]
  {
    hide Climbs;
    k := LeadingSlashes(ForwardSlashes(value));
    var f := BaseName(value);
    ClimbsIff(f);
    StepsStay(value, k, f);
  }

  /** No segment before the last is a step up, and only a name of 500 characters can end in one. */
  predicate Stays(f: string) {
    && 0 < |f| <= 500
    && !IsSlash(f[0])
    && ".." !in Segments(f)[..|Segments(f)| - 1]
    && (|f| < 500 ==> ".." !in Segments(f))
  }

  lemma StepOfPrefix(b: string, m: nat, n: nat)
    requires m <= |b| && n < |Segments(b[..m])| && Segments(b[..m])[n] == ".."
    requires n < |Segments(b[..m])| - 1 || m == |b|
    ensures ".." in Segments(b)
  {
    var f := b[..m];
    var i, j := SegmentPlace(f, n);
    assert f[i..j] == b[i..j];
    PlacedSegment(b, i, j);
  }

  lemma SafeNameStays(value: string)
    requires SafeFilename(value).Ok?
    ensures Stays(SafeFilename(value).value)
  {
    hide Climbs;
    var k := AcceptedIff(value);
    var b, f := BaseName(value), SafeFilename(value).value;
    BaseNameFacts(value);
    ClimbsIff(b);
    var m := |f|;
    assert f == b[..m];
    forall n | 0 <= n < |Segments(f)| && (n < |Segments(f)| - 1 || m < 500) ensures Segments(f)[n] != ".." {
      if Segments(f)[n] == ".." {
        StepOfPrefix(b, m, n);
      }
    }
  }

  lemma {:induction false} ItemsStay(raws: seq<Option<RawOp>>, isFile: bool, index: nat)
    requires NormalizeItems(raws, isFile, index).Ok?
    ensures forall op <- NormalizeItems(raws, isFile, index).value :: NamesStay(op)
    decreases |raws|
  {
    hide SafeFilename, Stays;
    if raws != [] {
      ItemsStay(raws[1..], isFile, index + 1);
      if raws[0].Some? {
        var raw := raws[0].value;
        if raw.filename != "" {
          SafeNameIfOk(raw.filename);
        }
        if raw.newFilename != "" {
          SafeNameIfOk(raw.newFilename);
        }
        assert NamesStay(NormalizeItem(raw, isFile, index).value);
      }
    }
  }

  lemma SafeNameIfOk(value: string)
    ensures SafeFilename(value).Ok? ==> Stays(SafeFilename(value).value)
  {
    if SafeFilename(value).Ok? {
      SafeNameStays(value);
    }
  }

  /** The names an operation uses: only a modification can carry a new name that nobody looked at. */
  predicate NamesStay(op: RawOp) {
    && (op.filename != "" ==> Stays(op.filename))
    && (op.newFilename != "" && op.typ != "modify" ==> Stays(op.newFilename))
  }

  /** No operation of a normalised patch names a file by a step up, but for one that the cut leaves at the very end. */
  lemma {:induction false} NormalizedNamesStay(p: Payload)
    requires Normalize(p).Ok?
    ensures forall op <- Normalize(p).value :: NamesStay(op)
  {
    hide NormalizeItems, NamesStay;
    if p.operations.Some? {
      ItemsStay(p.operations.value, false, 0);
    }
    ItemsStay(p.files, true, 0);
  }
}
