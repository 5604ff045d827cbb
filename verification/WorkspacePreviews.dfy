// Previews and conflicts: the base checksum an operation carries from its first preview on
// (backend/services/agent/code_workspace.py, the loop of preview_patch_payload).
module WorkspacePreviews {
  import opened PatchPayload
  import opened Workspace
  import opened WorkspaceFailures
  import opened WorkspaceFiles
  import opened Wrappers

  /** A missing checksum or file id is the empty string there. */
  datatype PreviewItem = PreviewItem(
    operationId: string, kind: Kind, file: Option<nat>, base: Option<Checksum>, current: Option<Checksum>, conflict: bool)

  // ----- One preview -----

  /** The entry of an operation in a preview; a later one wins. */
  function Find(items: seq<PreviewItem>, id: string): (r: Option<PreviewItem>)
    ensures r.Some? ==> r.value in items && r.value.operationId == id
  {
    if items == [] then None
    else
      var last := items[|items| - 1];
      if last.operationId == id then Some(last) else Find(items[..|items| - 1], id)
  }

  function CurrentChecksum(st: Store, op: RawOp): Option<Checksum> {
    if Found(st, op) then Some(st.records[Target(op).value].checksum) else None
  }

  /** Nothing for an operation whose file is missing. */
  function PreviewOf(st: Store, op: RawOp, previous: seq<PreviewItem>): Option<PreviewItem> {
    if Targeted(op) && !Found(st, op) then None
    else if KindOf(op) == Folder then Some(PreviewItem(op.operationId, Folder, None, None, None, false))
    else
      var before, current := Find(previous, op.operationId), CurrentChecksum(st, op);
      var base := if before.Some? && before.value.base.Some? then before.value.base else current;
      Some(PreviewItem(op.operationId, KindOf(op), Owner(st, op), base, current, base.Some? && current.Some? && base != current))
  }

  function PreviewList(st: Store, ops: seq<RawOp>, previous: seq<PreviewItem>): seq<PreviewItem> {
    if ops == [] then []
    else
      var last := PreviewOf(st, ops[|ops| - 1], previous);
      PreviewList(st, ops[..|ops| - 1], previous) + if last.Some? then [last.value] else []
  }

  function FolderName(st: Store, op: RawOp): string {
    if op.filename != "" then op.filename
    else if Found(st, op) then st.records[Target(op).value].filename
    else ""
  }

  /** The file id is one, a folder's name is acceptable, and a file that is not created can be read. */
  predicate Previewable(env: Env, st: Store, op: RawOp) {
    && !op.file.BadFile?
    && (KindOf(op) == Folder ==> SafeFilename(FolderName(st, op)).Ok?)
    && (Targeted(op) && Found(st, op) ==> Read(env, st, Target(op).value).Some?)
  }

  predicate AllPreviewable(env: Env, st: Store, ops: seq<RawOp>) {
    forall i :: 0 <= i < |ops| ==> Previewable(env, st, ops[i])
  }

  /** One operation that cannot be previewed makes the whole preview fail. */
  function PreviewAll(env: Env, st: Store, ops: seq<RawOp>, previous: seq<PreviewItem>): Result<seq<PreviewItem>, string> {
    if AllPreviewable(env, st, ops) then Ok(PreviewList(st, ops, previous)) else Err("Preview failed")
  }

  method PreviewOperations(env: Env, st: Store, ops: seq<RawOp>, previous: seq<PreviewItem>)
    returns (r: Result<seq<PreviewItem>, string>)
    ensures r == PreviewAll(env, st, ops, previous)
  {
    hide SafeFilename, Find, KindOf;
    var previews := [];
    for i := 0 to |ops|
      invariant forall j :: 0 <= j < i ==> Previewable(env, st, ops[j])
      invariant previews == PreviewList(st, ops[..i], previous)
    {
      var op := ops[i];
      assert ops[..i + 1][..i] == ops[..i];
      if op.file.BadFile? {
        return Err("Preview failed");
      }
      var found, kind := Found(st, op), KindOf(op);
      if kind in {Modify, Delete, Rename} && !found {
        continue;
      }
      if kind == Folder {
        if SafeFilename(FolderName(st, op)).Err? {
          return Err("Preview failed");
        }
        previews := previews + [PreviewItem(op.operationId, Folder, None, None, None, false)];
        continue;
      }
      if found && kind != Create && Read(env, st, Target(op).value).None? {
        return Err("Preview failed");
      }
      var before := Find(previous, op.operationId);
      var base := if before.Some? then before.value.base else None;
      var current := CurrentChecksum(st, op);
      if base.None? && found {
        base := current;
      }
      var conflict := base.Some? && current.Some? && base != current;
      previews := previews + [PreviewItem(op.operationId, kind, Owner(st, op), base, current, conflict)];
    }
    assert ops[..|ops|] == ops;
    r := Ok(previews);
  }

  ghost predicate UniqueIds(ops: seq<RawOp>) {
    forall i, j :: 0 <= i < j < |ops| ==> ops[i].operationId != ops[j].operationId
  }

  lemma FindAppended(items: seq<PreviewItem>, item: PreviewItem, id: string)
    ensures Find(items + [item], id) == if item.operationId == id then Some(item) else Find(items, id)
  {
    assert (items + [item])[..|items|] == items;
  }

  lemma {:induction false} NotListed(st: Store, ops: seq<RawOp>, previous: seq<PreviewItem>, id: string)
    requires forall i :: 0 <= i < |ops| ==> ops[i].operationId != id
    ensures Find(PreviewList(st, ops, previous), id) == None
  {
    hide Find, KindOf;
    if ops == [] {
      NothingFound(id);
    } else {
      var front, last := ops[..|ops| - 1], PreviewOf(st, ops[|ops| - 1], previous);
      NotListed(st, front, previous, id);
      if last.Some? {
        FindAppended(PreviewList(st, front, previous), last.value, id);
      } else {
        assert PreviewList(st, front, previous) + [] == PreviewList(st, front, previous);
      }
    }
  }

  lemma NothingFound(id: string)
    ensures Find([], id) == None
  {
  }

  /** With unique ids an operation finds its own entry. */
  lemma {:induction false} OwnEntry(st: Store, ops: seq<RawOp>, previous: seq<PreviewItem>, k: nat)
    requires UniqueIds(ops) && k < |ops|
    ensures Find(PreviewList(st, ops, previous), ops[k].operationId) == PreviewOf(st, ops[k], previous)
  {
    hide Find, KindOf;
    var front, last := ops[..|ops| - 1], PreviewOf(st, ops[|ops| - 1], previous);
    var items := PreviewList(st, front, previous);
    if last.Some? {
      FindAppended(items, last.value, ops[k].operationId);
    } else {
      assert items + [] == items;
    }
    if k < |ops| - 1 {
      assert front[k] == ops[k];
      OwnEntry(st, front, previous, k);
    } else {
      NotListed(st, front, previous, ops[k].operationId);
    }
  }

  lemma OneIdOneOp(ops: seq<RawOp>, a: RawOp, b: RawOp)
    requires UniqueIds(ops) && a in ops && b in ops && a.operationId == b.operationId
    ensures a == b
  {
    var i :| 0 <= i < |ops| && ops[i] == a;
    var j :| 0 <= j < |ops| && ops[j] == b;
    assert i == j;
  }

  lemma OwnEntryOf(st: Store, ops: seq<RawOp>, previous: seq<PreviewItem>, op: RawOp)
    requires UniqueIds(ops) && op in ops
    ensures Find(PreviewList(st, ops, previous), op.operationId) == PreviewOf(st, op, previous)
  {
    hide Find, PreviewOf, PreviewList, UniqueIds;
    var k :| 0 <= k < |ops| && ops[k] == op;
    OwnEntry(st, ops, previous, k);
  }

  /** Every item of a preview is the entry of one of the operations. */
  lemma {:induction false} ItemHasOp(st: Store, ops: seq<RawOp>, previous: seq<PreviewItem>, item: PreviewItem)
    returns (op: RawOp)
    requires item in PreviewList(st, ops, previous)
    ensures op in ops && PreviewOf(st, op, previous) == Some(item)
  {
    hide PreviewOf;
    var front, last := ops[..|ops| - 1], ops[|ops| - 1];
    if PreviewOf(st, last, previous) == Some(item) {
      op := last;
    } else {
      op := ItemHasOp(st, front, previous, item);
    }
  }

  // ----- Repeated previews -----

  /** The preview of `ops` after previewing it on each of the stores in turn, beginning with an empty preview. */
  function PreviewsAfter(stores: seq<Store>, ops: seq<RawOp>): seq<PreviewItem> {
    if stores == [] then [] else PreviewList(stores[|stores| - 1], ops, PreviewsAfter(stores[..|stores| - 1], ops))
  }

  /** Every later preview still carries the checksum the file had at the first one. */
  lemma {:induction false} BaseIsFirstChecksum(stores: seq<Store>, ops: seq<RawOp>, k: nat)
    requires UniqueIds(ops) && k < |ops| && KindOf(ops[k]) != Folder && stores != []
    requires Found(stores[0], ops[k]) && Found(stores[|stores| - 1], ops[k])
    requires forall i :: 0 <= i < |stores| ==> Found(stores[i], ops[k])
    ensures var entry, t := Find(PreviewsAfter(stores, ops), ops[k].operationId), Target(ops[k]).value;
      var first, now := stores[0].records[t].checksum, stores[|stores| - 1].records[t].checksum;
      entry == Some(PreviewItem(ops[k].operationId, KindOf(ops[k]), Some(t), Some(first), Some(now), first != now))
  {
    hide Find, UniqueIds, KindOf;
    var n := |stores| - 1;
    var earlier := PreviewsAfter(stores[..n], ops);
    OwnEntry(stores[n], ops, earlier, k);
    if n > 0 {
      BaseIsFirstChecksum(stores[..n], ops, k);
    } else {
      assert stores[..n] == [];
      NothingFound(ops[k].operationId);
    }
  }

  /** An operation is flagged as conflicting exactly when its file's object differs from the one at the first preview. */
  lemma {:induction false} ConflictMeansChanged(stores: seq<Store>, ops: seq<RawOp>, k: nat)
    requires UniqueIds(ops) && k < |ops| && KindOf(ops[k]) != Folder && stores != []
    requires forall i :: 0 <= i < |stores| ==> Found(stores[i], ops[k])
    requires ActiveTarget(stores[0], ops[k]) && ActiveTarget(stores[|stores| - 1], ops[k])
    requires Consistent(stores[0]) && Consistent(stores[|stores| - 1])
    ensures var entry, t := Find(PreviewsAfter(stores, ops), ops[k].operationId), Target(ops[k]).value;
      && entry.Some?
      && (entry.value.conflict <==> Stored(stores[|stores| - 1], t) != Stored(stores[0], t))
  {
    hide Find, UniqueIds, PreviewsAfter, SizeOf, KindOf;
    BaseIsFirstChecksum(stores, ops, k);
    var t := Target(ops[k]).value;
    assert Agrees(ViewOf(stores[0], t)) && Agrees(ViewOf(stores[|stores| - 1], t));
  }

  /** Applied with only part of its hunks and kept pending, a modification conflicts with itself exactly when that part
      changed the object. */
  lemma {:induction false} PartialApplyConflicts(env: Env, st: Store, ops: seq<RawOp>, k: nat)
    requires Orderly(st) && Consistent(st) && UniqueIds(ops) && k < |ops| && KindOf(ops[k]) == Modify
    requires ActiveTarget(st, ops[k]) && Appliable(env, st, ops[k])
    ensures var entry := Find(PreviewsAfter([st, Effect(env, st, ops[k]).0], ops), ops[k].operationId);
      entry.Some? && (entry.value.conflict <==> Rewrites(env, st, ops[k]))
  {
    hide Find, UniqueIds, PreviewsAfter, SizeOf, NewText, SafeFilename, KindOf;
    var st1 := Effect(env, st, ops[k]).0;
    EffectConsistent(env, st, ops[k]);
    ConflictMeansChanged([st, st1], ops, k);
  }
}
