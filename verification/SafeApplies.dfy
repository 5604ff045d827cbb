// What the automatic apply takes for safe, and what it can therefore not do to a file
// (backend/services/agent/code_workspace.py, classify_auto_apply_operations and apply_safe_patch_payload).
module SafeApplies {
  import opened AutoApply
  import opened ApplyOutcomes
  import opened CodeSessions
  import opened PatchPayload
  import opened PatchSelection
  import opened Sublists
  import opened Workspace
  import opened WorkspaceFiles
  import opened WorkspacePreviews
  import opened Wrappers

  /** The operation creates a file or a folder, or modifies a file that it names. */
  predicate Harmless(op: RawOp) {
    || op.typ == "create" || op.typ == "folder"
    || (op.typ != "delete" && op.typ != "rename" && !op.file.NoFile?)
  }

  /** Entry `i` is the last one under its id. */
  predicate LastOfId(items: seq<PreviewItem>, i: nat) {
    i < |items| && forall j :: i < j < |items| ==> items[j].operationId != items[i].operationId
  }

  /** The last entry under the operation's id shows a conflict. */
  predicate OwnConflict(items: seq<PreviewItem>, op: RawOp) {
    exists i :: 0 <= i < |items| && items[i].operationId == op.operationId && items[i].conflict && LastOfId(items, i)
  }

  ghost predicate EachIdOnce(values: seq<PreviewItem>) {
    forall i, j :: 0 <= i < j < |values| ==> values[i].operationId != values[j].operationId
  }

  lemma {:induction false} InsertIff(values: seq<PreviewItem>, item: PreviewItem)
    requires EachIdOnce(values)
    ensures EachIdOnce(InsertItem(values, item))
    ensures forall x :: x in InsertItem(values, item) <==> x == item || (x in values && x.operationId != item.operationId)
  {
    if values != [] {
      assert values == [values[0]] + values[1..];
      if values[0].operationId != item.operationId {
        InsertIff(values[1..], item);
        var rest := InsertItem(values[1..], item);
        forall j | 0 <= j < |rest| ensures rest[j].operationId != values[0].operationId {
          assert rest[j] in rest;
        }
      }
    }
  }

  /** The entry is the last one under its id. */
  predicate IsLast(items: seq<PreviewItem>, x: PreviewItem) {
    exists i :: 0 <= i < |items| && items[i] == x && LastOfId(items, i)
  }

  lemma LastAppended(items: seq<PreviewItem>, x: PreviewItem)
    requires items != []
    ensures var n := |items| - 1;
      IsLast(items, x) <==> x == items[n] || (IsLast(items[..n], x) && x.operationId != items[n].operationId)
  {
    var n := |items| - 1;
    var front := items[..n];
    assert LastOfId(items, n);
    if IsLast(front, x) && x.operationId != items[n].operationId {
      var i :| 0 <= i < n && front[i] == x && LastOfId(front, i);
      assert items[i] == x && LastOfId(items, i);
    }
    if IsLast(items, x) && x != items[n] {
      var i :| 0 <= i < |items| && items[i] == x && LastOfId(items, i);
      assert front[i] == x && LastOfId(front, i);
    }
  }

  lemma {:induction false} FoundIsLast(items: seq<PreviewItem>, id: string)
    ensures Find(items, id).None? ==> forall i :: 0 <= i < |items| ==> items[i].operationId != id
    ensures Find(items, id).Some? ==> IsLast(items, Find(items, id).value)
  {
    hide IsLast;
    if items != [] {
      var n := |items| - 1;
      FoundIsLast(items[..n], id);
      if items[n].operationId == id {
        LastAppended(items, items[n]);
      } else if Find(items[..n], id).Some? {
        LastAppended(items, Find(items[..n], id).value);
      }
    }
  }

  lemma {:induction false} ByOperationIff(items: seq<PreviewItem>)
    ensures EachIdOnce(ByOperation(items))
    ensures forall x :: x in ByOperation(items) <==> IsLast(items, x)
  {
    if items != [] {
      var n := |items| - 1;
      ByOperationIff(items[..n]);
      InsertIff(ByOperation(items[..n]), items[n]);
      hide EachIdOnce, InsertItem, IsLast;
      forall x ensures x in ByOperation(items) <==> IsLast(items, x) {
        LastAppended(items, x);
      }
    }
  }

  lemma {:induction false} LastWithFileIff(values: seq<PreviewItem>, file: nat)
    ensures LastWithFile(values, file).None? <==> forall x <- values :: x.file != Some(file)
  {
    if values != [] {
      LastWithFileIff(values[..|values| - 1], file);
      assert values == values[..|values| - 1] + [values[|values| - 1]];
    }
  }

  /** The entry is the last one of some id and shows the operation's file. */
  predicate ShowsFile(items: seq<PreviewItem>, i: nat, op: RawOp) {
    LastOfId(items, i) && op.file.FileId? && items[i].file == Some(op.file.id)
  }

  /** Some entry shows the file, and each that does conflicts. */
  predicate OnlyConflicts(items: seq<PreviewItem>, op: RawOp) {
    && (exists i :: 0 <= i < |items| && ShowsFile(items, i, op))
    && forall i :: 0 <= i < |items| && ShowsFile(items, i, op) ==> items[i].conflict
  }

  predicate NoConflicts(items: seq<PreviewItem>, op: RawOp) {
    forall i :: 0 <= i < |items| && ShowsFile(items, i, op) ==> !items[i].conflict
  }

  predicate HasEntry(items: seq<PreviewItem>, op: RawOp) {
    exists i :: 0 <= i < |items| && items[i].operationId == op.operationId
  }

  lemma FileEntry(items: seq<PreviewItem>, op: RawOp)
    requires op.file.FileId?
    ensures var x := LastWithFile(ByOperation(items), op.file.id);
      && (x.None? <==> forall i :: 0 <= i < |items| ==> !ShowsFile(items, i, op))
      && (x.Some? ==> exists i :: 0 <= i < |items| && items[i] == x.value && ShowsFile(items, i, op))
  {
    hide ByOperation, LastWithFile, LastOfId;
    ByOperationIff(items);
    LastWithFileIff(ByOperation(items), op.file.id);
    forall i | 0 <= i < |items| && ShowsFile(items, i, op) ensures items[i] in ByOperation(items) {
      assert LastOfId(items, i);
      assert IsLast(items, items[i]);
    }
    var found := LastWithFile(ByOperation(items), op.file.id);
    if found.Some? {
      assert IsLast(items, found.value);
      var i :| 0 <= i < |items| && items[i] == found.value && LastOfId(items, i);
      assert ShowsFile(items, i, op);
    }
  }

  /**
   * What is classified as safe is harmless and has no conflict of its own. With an entry of its own that is all; an operation
   * without one is held back if the entries that show its file all conflict, and not if none of them does.
   */
  lemma {:induction false} SafeIff(ops: seq<RawOp>, items: seq<PreviewItem>, op: RawOp)
    ensures op in Safe(ops, items) ==> op in ops && Harmless(op) && !OwnConflict(items, op)
    ensures op in ops && Harmless(op) && HasEntry(items, op) ==> (op in Safe(ops, items) <==> !OwnConflict(items, op))
    ensures !HasEntry(items, op) && OnlyConflicts(items, op) ==> op !in Safe(ops, items)
    ensures op in ops && Harmless(op) && !HasEntry(items, op) && NoConflicts(items, op) ==> op in Safe(ops, items)
  {
    hide Find, Filter, LastWithFile, ByOperation, ShowsFile, OwnConflict, HasEntry, IsLast;
    SafeMember(ops, items, op);
    FoundIsLast(items, op.operationId);
    OwnConflictIff(items, op);
    if op.file.FileId? {
      FileEntry(items, op);
    } else {
      NoFileShown(items, op);
    }
  }

  lemma OwnConflictIff(items: seq<PreviewItem>, op: RawOp)
    requires Find(items, op.operationId).Some? ==> IsLast(items, Find(items, op.operationId).value)
    requires Find(items, op.operationId).None? ==> forall i :: 0 <= i < |items| ==> items[i].operationId != op.operationId
    ensures OwnConflict(items, op) <==> Find(items, op.operationId).Some? && Find(items, op.operationId).value.conflict
    ensures HasEntry(items, op) <==> Find(items, op.operationId).Some?
  {
    hide Find;
    if Find(items, op.operationId).Some? {
      var k :| 0 <= k < |items| && items[k] == Find(items, op.operationId).value && LastOfId(items, k);
      assert items[k].operationId == op.operationId;
      if i :| 0 <= i < |items| && items[i].operationId == op.operationId && LastOfId(items, i) {
        assert i == k;
      }
    }
  }

  lemma NoFileShown(items: seq<PreviewItem>, op: RawOp)
    requires !op.file.FileId?
    ensures forall i :: 0 <= i < |items| ==> !ShowsFile(items, i, op)
  {
  }

  // ----- What it cannot do -----

  lemma HarmlessTurn(env: Env, st: Store, op: RawOp, id: nat)
    requires Orderly(st) && Appliable(env, st, op) && Harmless(op) && id in st.records
    ensures SamePlace(ViewOf(st, id), ViewOf(Effect(env, st, op).0, id))
  {
    hide NewText, SizeOf, SafeFilename, OldText, TargetName;
  }

  lemma SamePlaceTwice(a: FileView, b: FileView, c: FileView)
    requires SamePlace(a, b) && SamePlace(b, c)
    ensures SamePlace(a, c)
  {
  }

  /** Harmless operations leave every file there is active or not, under its name, in or out of the session, as it was. */
  lemma {:induction false} HarmlessApply(env: Env, st: Store, ops: seq<RawOp>, id: nat)
    requires Orderly(st) && (forall op <- ops :: Harmless(op)) && id in st.records
    ensures SamePlace(ViewOf(st, id), ViewOf(ApplyAll(env, st, ops).store, id))
    decreases |ops|
  {
    hide Orderly, Effect, Appliable, Harmless, ViewOf, SamePlace;
    if ops == [] || !Appliable(env, st, ops[0]) {
      StaysInPlace(st, id);
    } else {
      var st1 := Effect(env, st, ops[0]).0;
      EffectKeepsOrder(env, st, ops[0]);
      HarmlessTurn(env, st, ops[0], id);
      HarmlessApply(env, st1, ops[1..], id);
      SamePlaceTwice(ViewOf(st, id), ViewOf(st1, id), ViewOf(ApplyAll(env, st1, ops[1..]).store, id));
    }
  }

  lemma StaysInPlace(st: Store, id: nat)
    requires id in st.records
    ensures SamePlace(ViewOf(st, id), ViewOf(st, id))
  {
  }

  /** When the automatic apply takes just what is safe, no file is deleted, renamed or taken out of the session, and no
      deleted one comes back. */
  lemma {:induction false} NothingTakenAway(base: Env, s: Session, id: nat)
    requires s.patch.Some? && Previewed(base, s).Ok? && Orderly(s.work.store) && id in s.work.store.records
    requires AutoApplied(base, s).1 == Ok(Safe(Pending(s.patch), Previewed(base, s).value.preview))
    ensures SamePlace(ViewOf(s.work.store, id), ViewOf(AutoApplied(base, s).0.work.store, id))
  {
    hide Normalize, PreviewAll, Safe, Apply, Orderly, ViewOf, SamePlace, ApplyAll, Pending, SelectedIds, Filter, Meant;
    PreviewNeedsPatch(base, s);
    var s1, ops := Previewed(base, s).value, Pending(s.patch);
    var safe, sel := Safe(ops, s1.preview), SafeSelection(ops, s1.preview);
    StaysInPlace(s.work.store, id);
    if safe == [] {
      PreviewNeedsPatch(base, s1);
    } else {
      ApplySucceeded(base, s1, sel, false);
      forall op | op in safe ensures Harmless(op) {
        SafeIff(ops, s1.preview, op);
      }
      HarmlessApply(CallEnv(base, s1, sel), s.work.store, safe, id);
    }
  }

  /** When nothing is safe the call changes the preview only: it is made twice, the second time from the entries of the first. */
  lemma {:induction false} NothingSafe(base: Env, s: Session)
    requires s.patch.Some? && Previewed(base, s).Ok?
    requires Safe(Pending(s.patch), Previewed(base, s).value.preview) == []
    ensures var (t, r) := AutoApplied(base, s);
      var first := PreviewList(s.work.store, Pending(s.patch), s.preview);
      r == Ok([]) && t == s.(preview := PreviewList(s.work.store, Pending(s.patch), first))
  {
    hide Normalize, Safe, PreviewList, SelectedIds, Filter;
    PreviewNeedsPatch(base, s);
    PreviewedAgain(base, SafeSelection(Pending(s.patch), Previewed(base, s).value.preview), s);
  }
}
