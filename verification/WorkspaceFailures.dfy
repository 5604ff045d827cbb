// Applies that fail half way: when they do, and what they leave behind.
module WorkspaceFailures {
  import opened EditScripts
  import opened PatchPayload
  import opened Workspace
  import opened WorkspaceFiles
  import opened Wrappers

  // ----- Texts written -----

  function Stored(st: Store, id: nat): Option<Lines> {
    if id in st.objects then Some(st.objects[id]) else None
  }

  /** The text the operation leaves in its file. */
  function TextFor(env: Env, st: Store, op: RawOp): Lines {
    NewText(env, Owner(st, op), OldText(env, st, op), op)
  }

  /** The operation writes something other than the stored object; a rename only writes when the text read changes. */
  predicate Rewrites(env: Env, st: Store, op: RawOp) {
    && KindOf(op) in {Modify, Rename} && Found(st, op)
    && (KindOf(op) == Rename ==> TextFor(env, st, op) != OldText(env, st, op))
    && Some(TextFor(env, st, op)) != Stored(st, Target(op).value)
  }

  lemma SameRewrites(env: Env, a: Store, b: Store, op: RawOp)
    requires Target(op).Some? && ViewOf(a, Target(op).value) == ViewOf(b, Target(op).value)
    ensures Rewrites(env, a, op) <==> Rewrites(env, b, op)
    ensures TextFor(env, a, op) == TextFor(env, b, op)
  {
    hide NewText, KindOf;
    var id := Target(op).value;
    var va, vb := ViewOf(a, id), ViewOf(b, id);
    assert va.record == vb.record && va.text == vb.text;
    assert Found(a, op) <==> Found(b, op);
    assert OldText(env, a, op) == OldText(env, b, op);
  }

  lemma EffectOnObject(env: Env, st: Store, op: RawOp)
    requires Orderly(st) && Appliable(env, st, op) && Found(st, op)
    ensures var v := ViewOf(Effect(env, st, op).0, Target(op).value);
      v.text == ViewOf(st, Target(op).value).text <==> !Rewrites(env, st, op)
  {
    hide NewText, KindOf, SizeOf;
  }

  // ----- When an apply goes through -----

  /** Known ids, each named once. */
  ghost predicate SeparateTargets(st: Store, ops: seq<RawOp>) {
    && (forall i, j :: 0 <= i < j < |ops| && Target(ops[i]).Some? ==> Target(ops[i]) != Target(ops[j]))
    && forall i :: 0 <= i < |ops| && Target(ops[i]).Some? ==> Target(ops[i]).value < st.nextId
  }

  lemma AppliableStays(env: Env, st: Store, op: RawOp, other: RawOp)
    requires Orderly(st) && Appliable(env, st, op)
    requires Target(other).Some? ==> Target(op) != Target(other) && Target(other).value < st.nextId
    ensures Appliable(env, Effect(env, st, op).0, other) <==> Appliable(env, st, other)
  {
    hide NewText, KindOf, SizeOf, SafeFilename;
    if Target(other).Some? {
      EffectElsewhere(env, st, op, Target(other).value);
      assert ViewOf(Effect(env, st, op).0, Target(other).value) == ViewOf(st, Target(other).value);
    }
  }

  /** Whether a patch goes through can be told beforehand: every target exists and can be read, every file id is one and
      every name is acceptable. */
  lemma {:induction false} ApplySucceedsIff(env: Env, st: Store, ops: seq<RawOp>)
    requires Orderly(st) && SeparateTargets(st, ops)
    ensures ApplyAll(env, st, ops).ok <==> forall i :: 0 <= i < |ops| ==> Appliable(env, st, ops[i])
    decreases |ops|
  {
    hide Orderly, Effect, Appliable;
    if ops != [] && Appliable(env, st, ops[0]) {
      var st1 := Effect(env, st, ops[0]).0;
      EffectKeepsOrder(env, st, ops[0]);
      forall i | 0 < i < |ops| ensures Appliable(env, st1, ops[i]) <==> Appliable(env, st, ops[i]) {
        AppliableStays(env, st, ops[0], ops[i]);
      }
      ApplySucceedsIff(env, st1, ops[1..]);
      if forall i :: 0 <= i < |ops[1..]| ==> Appliable(env, st1, ops[1..][i]) {
        forall i | 0 <= i < |ops| ensures Appliable(env, st, ops[i]) {
          if i > 0 {
            assert ops[1..][i - 1] == ops[i];
          }
        }
      }
    }
  }

  /** The first operation that cannot be applied to the files as they are. */
  function FirstRefused(env: Env, st: Store, ops: seq<RawOp>): (n: nat)
    ensures n <= |ops| && (forall i :: 0 <= i < n ==> Appliable(env, st, ops[i])) && (n < |ops| ==> !Appliable(env, st, ops[n]))
  {
    if ops == [] || !Appliable(env, st, ops[0]) then 0 else 1 + FirstRefused(env, st, ops[1..])
  }

  lemma SeparateStay(env: Env, st: Store, ops: seq<RawOp>)
    requires Orderly(st) && SeparateTargets(st, ops) && ops != [] && Appliable(env, st, ops[0])
    ensures SeparateTargets(Effect(env, st, ops[0]).0, ops[1..])
    ensures forall i :: 0 < i < |ops| ==> (Appliable(env, Effect(env, st, ops[0]).0, ops[i]) <==> Appliable(env, st, ops[i]))
  {
    hide Orderly, Effect, Appliable;
    EffectKeepsOrder(env, st, ops[0]);
    forall i | 0 < i < |ops| ensures Appliable(env, Effect(env, st, ops[0]).0, ops[i]) <==> Appliable(env, st, ops[i]) {
      AppliableStays(env, st, ops[0], ops[i]);
    }
  }

  lemma {:induction false} SameRefused(env: Env, a: Store, b: Store, ops: seq<RawOp>)
    requires forall op <- ops :: Appliable(env, a, op) <==> Appliable(env, b, op)
    ensures FirstRefused(env, a, ops) == FirstRefused(env, b, ops)
  {
    hide Appliable;
    if ops != [] {
      assert ops[0] in ops;
      SameRefused(env, a, b, ops[1..]);
    }
  }

  /** An apply gets exactly so far. */
  lemma {:induction false} StopsAtFirstRefused(env: Env, st: Store, ops: seq<RawOp>)
    requires Orderly(st) && SeparateTargets(st, ops)
    ensures |ApplyAll(env, st, ops).items| == FirstRefused(env, st, ops)
    ensures ApplyAll(env, st, ops).ok <==> FirstRefused(env, st, ops) == |ops|
    decreases |ops|
  {
    hide Orderly, SeparateTargets, Effect, Appliable;
    if ops != [] && Appliable(env, st, ops[0]) {
      var st1 := Effect(env, st, ops[0]).0;
      EffectKeepsOrder(env, st, ops[0]);
      SeparateStay(env, st, ops);
      StopsAtFirstRefused(env, st1, ops[1..]);
      SameRefused(env, st1, st, ops[1..]);
    }
  }

  // ----- What a failed apply leaves -----

  /** One of the first `n` operations rewrites file `id`. */
  ghost predicate Rewritten(env: Env, st: Store, ops: seq<RawOp>, n: nat, id: nat)
    requires n <= |ops|
  {
    exists j :: 0 <= j < n && Target(ops[j]) == Some(id) && Rewrites(env, st, ops[j])
  }

  lemma RewrittenLater(env: Env, st: Store, ops: seq<RawOp>, n: nat, id: nat)
    requires 0 < n <= |ops| && Appliable(env, st, ops[0]) && Target(ops[0]) != Some(id)
    requires ViewOf(Effect(env, st, ops[0]).0, id) == ViewOf(st, id)
    ensures Rewritten(env, st, ops, n, id) <==> Rewritten(env, Effect(env, st, ops[0]).0, ops[1..], n - 1, id)
  {
    hide Rewrites, Appliable, Effect, ViewOf;
    var st1 := Effect(env, st, ops[0]).0;
    forall j | 0 < j < n && Target(ops[j]) == Some(id) ensures Rewrites(env, st1, ops[j]) <==> Rewrites(env, st, ops[j]) {
      SameRewrites(env, st, st1, ops[j]);
    }
    if Rewritten(env, st1, ops[1..], n - 1, id) {
      var j :| 0 <= j < n - 1 && Target(ops[1..][j]) == Some(id) && Rewrites(env, st1, ops[1..][j]);
      assert ops[1..][j] == ops[j + 1];
    }
    if Rewritten(env, st, ops, n, id) {
      var j :| 0 <= j < n && Target(ops[j]) == Some(id) && Rewrites(env, st, ops[j]);
      assert ops[1..][j - 1] == ops[j];
    }
  }

  lemma RewrittenFirst(env: Env, st: Store, ops: seq<RawOp>, n: nat, id: nat)
    requires SeparateTargets(st, ops) && 0 < n <= |ops| && Target(ops[0]) == Some(id)
    ensures Rewritten(env, st, ops, n, id) <==> Rewrites(env, st, ops[0])
  {
    hide Rewrites;
  }

  lemma NothingRewritten(env: Env, st: Store, ops: seq<RawOp>, id: nat)
    ensures !Rewritten(env, st, ops, 0, id)
  {
  }

  lemma EffectOffTarget(env: Env, st: Store, op: RawOp, id: nat)
    requires Orderly(st) && Appliable(env, st, op) && id < st.nextId && !(Targeted(op) && Target(op) == Some(id))
    ensures ViewOf(Effect(env, st, op).0, id) == ViewOf(st, id)
  {
    hide NewText, KindOf, SizeOf;
    EffectElsewhere(env, st, op, id);
  }

  lemma {:induction false} ObjectKept(env: Env, st: Store, ops: seq<RawOp>, id: nat)
    requires Orderly(st) && SeparateTargets(st, ops) && id in st.records
    ensures |ApplyAll(env, st, ops).items| <= |ops|
    ensures var p := ApplyAll(env, st, ops);
      ViewOf(p.store, id).text == ViewOf(st, id).text <==> !Rewritten(env, st, ops, |p.items|, id)
    decreases |ops|
  {
    hide Orderly, SeparateTargets, ViewOf, Effect, Appliable, Rewrites, Rewritten;
    StopsAtFirstRefused(env, st, ops);
    if ops == [] || !Appliable(env, st, ops[0]) {
      NothingRewritten(env, st, ops, id);
    } else {
      var st1 := Effect(env, st, ops[0]).0;
      var n := |ApplyAll(env, st, ops).items|;
      EffectKeepsOrder(env, st, ops[0]);
      SeparateStay(env, st, ops);
      KnownIds(st, id);
      if Target(ops[0]) == Some(id) {
        TargetsElsewhere(st, ops, id);
        ApplyAllElsewhere(env, st1, ops[1..], id);
        EffectOnObject(env, st, ops[0]);
        RewrittenFirst(env, st, ops, n, id);
      } else {
        EffectOffTarget(env, st, ops[0], id);
        SameView(st, st1, id);
        ObjectKept(env, st1, ops[1..], id);
        RewrittenLater(env, st, ops, n, id);
      }
    }
  }

  lemma TargetsElsewhere(st: Store, ops: seq<RawOp>, id: nat)
    requires SeparateTargets(st, ops) && ops != [] && Target(ops[0]) == Some(id)
    ensures forall i :: 0 <= i < |ops[1..]| ==> Target(ops[1..][i]) != Some(id)
  {
  }

  /** A failed apply leaves the records as they were, but not the objects: records and objects still agree exactly when no
      operation before the first one that could be seen to fail writes another object into an active file. */
  lemma {:induction false} FailedApply(env: Env, st: Store, ops: seq<RawOp>)
    requires Orderly(st) && Consistent(st) && SeparateTargets(st, ops) && !ApplyAll(env, st, ops).ok
    ensures var p, n := ApplyAll(env, st, ops), FirstRefused(env, st, ops);
      && n < |ops|
      && (Consistent(Discarded(st, p.store)) <==>
            forall j :: 0 <= j < n && ActiveTarget(st, ops[j]) ==> !Rewrites(env, st, ops[j]))
  {
    hide Orderly, SeparateTargets, ApplyAll, Rewrites, Appliable;
    var p, n := ApplyAll(env, st, ops), FirstRefused(env, st, ops);
    var t := Discarded(st, p.store);
    StopsAtFirstRefused(env, st, ops);
    forall id | id in st.records && st.records[id].status == Active
      ensures Agrees(ViewOf(t, id)) <==> !Rewritten(env, st, ops, n, id)
    {
      assert Agrees(ViewOf(st, id));
      ObjectKept(env, st, ops, id);
      assert ViewOf(t, id).text == ViewOf(p.store, id).text;
    }
    if Consistent(t) {
      forall j | 0 <= j < n && ActiveTarget(st, ops[j]) ensures !Rewrites(env, st, ops[j]) {
        assert Agrees(ViewOf(t, Target(ops[j]).value));
        NotRewritten(env, st, ops, n, j);
      }
    }
  }

  lemma NotRewritten(env: Env, st: Store, ops: seq<RawOp>, n: nat, j: nat)
    requires j < n <= |ops| && Target(ops[j]).Some? && !Rewritten(env, st, ops, n, Target(ops[j]).value)
    ensures !Rewrites(env, st, ops[j])
  {
    hide Rewrites;
  }

  // ----- What a successful apply leaves in its files -----

  /** A modified file keeps its name and gets the text the operation writes on the files as they were. */
  lemma {:induction false} ModifiedFile(env: Env, st: Store, ops: seq<RawOp>, op: RawOp)
    requires Orderly(st) && SeparateTargets(st, ops) && op in ops && KindOf(op) == Modify && ApplyAll(env, st, ops).ok
    ensures Found(st, op)
    ensures var t, id := ApplyAll(env, st, ops).store, Target(op).value;
      id in t.records && t.records[id].filename == st.records[id].filename && Stored(t, id) == Some(TextFor(env, st, op))
    decreases |ops|
  {
    hide Orderly, SeparateTargets, Effect, Appliable, TextFor, KindOf;
    var st1 := Effect(env, st, ops[0]).0;
    EffectKeepsOrder(env, st, ops[0]);
    SeparateStay(env, st, ops);
    if op == ops[0] {
      ModifiedNow(env, st, op);
      TargetsElsewhere(st, ops, Target(op).value);
      TargetKnown(st, ops, op);
      ApplyAllElsewhere(env, st1, ops[1..], Target(op).value);
      assert ViewOf(ApplyAll(env, st1, ops[1..]).store, Target(op).value) == ViewOf(st1, Target(op).value);
    } else {
      ModifiedFile(env, st1, ops[1..], op);
      TargetKnown(st, ops, op);
      OtherThanFirst(st, ops, op);
      EffectOffTarget(env, st, ops[0], Target(op).value);
      SameRewrites(env, st1, st, op);
      assert ViewOf(st1, Target(op).value) == ViewOf(st, Target(op).value);
    }
  }

  lemma ModifiedNow(env: Env, st: Store, op: RawOp)
    requires KindOf(op) == Modify && Appliable(env, st, op)
    ensures Found(st, op)
    ensures var t, id := Effect(env, st, op).0, Target(op).value;
      id in t.records && t.records[id].filename == st.records[id].filename && Stored(t, id) == Some(TextFor(env, st, op))
  {
    hide KindOf, NewText, SizeOf, SafeFilename;
  }

  lemma TargetKnown(st: Store, ops: seq<RawOp>, op: RawOp)
    requires SeparateTargets(st, ops) && op in ops
    ensures Target(op).Some? ==> Target(op).value < st.nextId
  {
    var i :| 0 <= i < |ops| && ops[i] == op;
  }

  lemma OtherThanFirst(st: Store, ops: seq<RawOp>, op: RawOp)
    requires SeparateTargets(st, ops) && ops != [] && op in ops && op != ops[0]
    ensures Target(op).Some? ==> Target(ops[0]) != Target(op)
  {
    var i :| 0 <= i < |ops| && ops[i] == op;
  }
}
