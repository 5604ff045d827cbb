// Undoing applied patches: one rollback, and the undo stack
// (backend/services/agent/code_workspace.py, apply_patch_payload and rollback_snapshot).
module WorkspaceUndo {
  import opened EditScripts
  import opened PatchPayload
  import opened Workspace
  import opened WorkspaceFiles
  import opened Wrappers

  // ----- One operation undone -----

  /** Restoring the item of an operation puts its file back with the text that was read from it, wherever the rest of the
      store, and the file's own text, stand by then. */
  lemma {:induction false} UndoOne(env: Env, st: Store, op: RawOp, t: Store)
    requires Orderly(st) && Appliable(env, st, op) && Targeted(op) && GoodTarget(st, op)
    requires var id := Target(op).value; SamePlace(ViewOf(t, id), ViewOf(Effect(env, st, op).0, id))
    ensures ViewOf(RestoreItem(t, Effect(env, st, op).1), Target(op).value) == Reread(env, ViewOf(st, Target(op).value))
  {
    hide NewText, KindOf, SizeOf, SafeFilename;
    var id := Target(op).value;
    if KindOf(op) == Delete {
      UnlistedMember(st.fileIds, id, id);
    }
  }

  lemma TakeBack(env: Env, st: Store, op: RawOp, t: Store)
    requires Appliable(env, st, op) && KindOf(op) == Create && st.nextId in t.records
    ensures Gone(ViewOf(RestoreItem(t, Effect(env, st, op).1), st.nextId))
  {
    hide NewText, KindOf, SizeOf, SafeFilename;
    WithoutMember(t.fileIds, st.nextId, st.nextId);
  }

  // ----- A patch undone -----

  /** Some operation modifies, deletes or renames the file. */
  ghost predicate TargetedIn(ops: seq<RawOp>, id: nat) {
    exists i :: 0 <= i < |ops| && Targeted(ops[i]) && Target(ops[i]) == Some(id)
  }

  lemma TargetedFirst(ops: seq<RawOp>, id: nat)
    requires ops != []
    ensures TargetedIn(ops, id) <==> (Targeted(ops[0]) && Target(ops[0]) == Some(id)) || TargetedIn(ops[1..], id)
  {
    hide Targeted, Target;
    if TargetedIn(ops[1..], id) {
      var i :| 0 <= i < |ops[1..]| && Targeted(ops[1..][i]) && Target(ops[1..][i]) == Some(id);
      assert Targeted(ops[i + 1]) && Target(ops[i + 1]) == Some(id);
    }
    if TargetedIn(ops, id) {
      var i :| 0 <= i < |ops| && Targeted(ops[i]) && Target(ops[i]) == Some(id);
      if i > 0 {
        assert ops[1..][i - 1] == ops[i];
      }
    }
  }

  lemma UntargetedKept(env: Env, st: Store, ops: seq<RawOp>, t: Store, id: nat)
    requires Orderly(st) && id in st.records && !TargetedIn(ops, id)
    ensures ViewOf(ApplyAll(env, st, ops).store, id) == ViewOf(st, id)
    ensures ViewOf(RestoreAll(t, ApplyAll(env, st, ops).items), id) == ViewOf(t, id)
  {
    hide Orderly, ViewOf, ApplyAll, RestoreAll, Targeted, Target;
    KnownIds(st, id);
    ApplyAllElsewhere(env, st, ops, id);
    RestoreAllElsewhere(t, ApplyAll(env, st, ops).items, id);
  }

  lemma SamePlaceOf(a: FileView, b: FileView, c: FileView)
    requires SamePlace(a, b) && b == c
    ensures SamePlace(a, c)
  {
  }

  /** Applying a patch and rolling its snapshot back: a file the patch targets comes back with its name, status and place
      and with the text read from it, every other file stays as it is. */
  lemma {:induction false} FileRestored(env: Env, st: Store, ops: seq<RawOp>, t: Store, id: nat)
    requires Orderly(st) && DistinctTargets(st, ops) && id in st.records && TargetedIn(ops, id)
    requires ApplyAll(env, st, ops).ok && SamePlace(ViewOf(t, id), ViewOf(ApplyAll(env, st, ops).store, id))
    ensures ViewOf(RestoreAll(t, ApplyAll(env, st, ops).items), id) == Reread(env, ViewOf(st, id))
    decreases |ops|
  {
    hide Orderly, DistinctTargets, ViewOf, Effect, RestoreItem, Appliable, SamePlace, Reread, TargetedIn, Targeted, Target;
    TargetedSome(ops, id);
    var (st1, item) := Effect(env, st, ops[0]);
    var rest := ApplyAll(env, st1, ops[1..]);
    var t1 := RestoreItem(t, item);
    EffectKeepsOrder(env, st, ops[0]);
    DistinctTargetsStay(env, st, ops);
    KnownIds(st, id);
    TargetedFirst(ops, id);
    FirstItem(env, st, ops);
    if Touches(item, id) {
      FirstTarget(env, st, ops, id);
      OtherTargets(st, ops, id);
      ApplyAllElsewhere(env, st1, ops[1..], id);
      SamePlaceOf(ViewOf(t, id), ViewOf(rest.store, id), ViewOf(st1, id));
      UndoOne(env, st, ops[0], t);
      RestoreAllElsewhere(t1, rest.items, id);
    } else {
      NotFirstTarget(env, st, ops[0], id);
      EffectElsewhere(env, st, ops[0], id);
      RestoreElsewhere(t, item, id);
      StillKnown(st, st1, id);
      FileRestored(env, st1, ops[1..], t1, id);
    }
  }

  lemma TargetedSome(ops: seq<RawOp>, id: nat)
    requires TargetedIn(ops, id)
    ensures ops != []
  {
  }

  lemma NotFirstTarget(env: Env, st: Store, op: RawOp, id: nat)
    requires Appliable(env, st, op) && !Touches(Effect(env, st, op).1, id)
    ensures !(Targeted(op) && Target(op) == Some(id))
  {
    hide NewText, KindOf;
  }

  lemma StillKnown(a: Store, b: Store, id: nat)
    requires ViewOf(a, id) == ViewOf(b, id) && id in a.records
    ensures id in b.records
  {
  }

  /** And takes back every file the patch created. */
  lemma {:induction false} CreatedTakenBack(env: Env, st: Store, ops: seq<RawOp>, t: Store, id: nat)
    requires Orderly(st) && DistinctTargets(st, ops) && id in t.records && id !in st.records
    requires ApplyAll(env, st, ops).ok && id in ApplyAll(env, st, ops).store.records
    ensures Gone(ViewOf(RestoreAll(t, ApplyAll(env, st, ops).items), id))
    decreases |ops|
  {
    hide Orderly, DistinctTargets, ViewOf, Effect, RestoreItem, Appliable, Gone;
    if ops != [] {
      var (st1, item) := Effect(env, st, ops[0]);
      var rest := ApplyAll(env, st1, ops[1..]);
      var t1 := RestoreItem(t, item);
      EffectKeepsOrder(env, st, ops[0]);
      DistinctTargetsStay(env, st, ops);
      RestoreKeepsKeys(t, item);
      if id in st1.records {
        NewFile(env, st, ops, id);
        ApplyAllElsewhere(env, st1, ops[1..], id);
        TakeBack(env, st, ops[0], t);
        RestoreAllElsewhere(t1, rest.items, id);
      } else {
        CreatedTakenBack(env, st1, ops[1..], t1, id);
      }
    }
  }

  lemma NewFile(env: Env, st: Store, ops: seq<RawOp>, id: nat)
    requires Orderly(st) && DistinctTargets(st, ops) && ops != [] && Appliable(env, st, ops[0])
    requires id !in st.records && id in Effect(env, st, ops[0]).0.records
    ensures KindOf(ops[0]) == Create && id == st.nextId && id < Effect(env, st, ops[0]).0.nextId
    ensures forall i :: 0 <= i < |ops[1..]| && Targeted(ops[1..][i]) ==> Target(ops[1..][i]) != Some(id)
  {
    hide Appliable, NewText, KindOf;
  }

  // ----- Folders -----

  predicate NamesFolder(op: RawOp, folder: string) {
    KindOf(op) == Folder && SafeFilename(op.filename) == Ok(folder)
  }

  predicate SomeNames(ops: seq<RawOp>, folder: string) {
    exists i :: 0 <= i < |ops| && NamesFolder(ops[i], folder)
  }

  lemma FolderEffect(env: Env, st: Store, op: RawOp, folder: string)
    requires Appliable(env, st, op)
    ensures var (st1, item) := Effect(env, st, op);
      && (folder in st1.folders <==> folder in st.folders || NamesFolder(op, folder))
      && (item == FolderItem(folder) <==> NamesFolder(op, folder))
  {
    hide NewText, KindOf, SizeOf, SafeFilename;
  }

  lemma {:induction false} FoldersAfterApply(env: Env, st: Store, ops: seq<RawOp>, folder: string)
    requires ApplyAll(env, st, ops).ok
    ensures var p := ApplyAll(env, st, ops);
      && (folder in p.store.folders <==> folder in st.folders || SomeNames(ops, folder))
      && (FolderItem(folder) in p.items <==> SomeNames(ops, folder))
    decreases |ops|
  {
    hide Effect, Appliable, NamesFolder;
    if ops != [] {
      var (st1, item) := Effect(env, st, ops[0]);
      FolderEffect(env, st, ops[0], folder);
      FoldersAfterApply(env, st1, ops[1..], folder);
      assert SomeNames(ops, folder) <==> NamesFolder(ops[0], folder) || SomeNames(ops[1..], folder) by {
        if SomeNames(ops[1..], folder) {
          var i :| 0 <= i < |ops[1..]| && NamesFolder(ops[1..][i], folder);
          assert NamesFolder(ops[i + 1], folder);
        }
      }
      assert ApplyAll(env, st, ops).items == [item] + ApplyAll(env, st1, ops[1..]).items;
    }
  }

  lemma FolderRestore(st: Store, item: Item, folder: string)
    ensures folder in RestoreItem(st, item).folders <==> folder in st.folders && item != FolderItem(folder)
  {
    hide SizeOf;
    if item.FolderItem? {
      WithoutMember(st.folders, item.folder, folder);
    }
  }

  lemma {:induction false} FoldersAfterRestore(st: Store, items: seq<Item>, folder: string)
    ensures folder in RestoreAll(st, items).folders <==> folder in st.folders && FolderItem(folder) !in items
    decreases |items|
  {
    hide RestoreItem;
    if items != [] {
      FolderRestore(st, items[0], folder);
      FoldersAfterRestore(RestoreItem(st, items[0]), items[1..], folder);
      assert items == [items[0]] + items[1..];
    }
  }

  /** Apply and rollback lose exactly the folders that existed before and are named by the patch again. */
  lemma {:induction false} FoldersRestored(env: Env, st: Store, ops: seq<RawOp>, folder: string)
    requires ApplyAll(env, st, ops).ok
    ensures var p := ApplyAll(env, st, ops);
      folder in RestoreAll(p.store, p.items).folders <==> folder in st.folders && !SomeNames(ops, folder)
  {
    FoldersAfterApply(env, st, ops, folder);
    FoldersAfterRestore(ApplyAll(env, st, ops).store, ApplyAll(env, st, ops).items, folder);
  }

  // ----- One snapshot -----

  /** A patch with the hunks selected and rejected when it is applied. */
  datatype Batch = Batch(ops: seq<RawOp>, selected: set<string>, rejected: set<string>)

  function EnvFor(env: Env, b: Batch): Env {
    env.(selected := b.selected, rejected := b.rejected)
  }

  function ApplyBatch(env: Env, st: Store, b: Batch): Progress {
    ApplyAll(EnvFor(env, b), st, b.ops)
  }

  ghost predicate TargetedByAny(batches: seq<Batch>, id: nat) {
    exists i :: 0 <= i < |batches| && TargetedIn(batches[i].ops, id)
  }

  lemma TargetedByFirst(b: Batch, rest: seq<Batch>, id: nat)
    ensures TargetedByAny([b] + rest, id) <==> TargetedIn(b.ops, id) || TargetedByAny(rest, id)
  {
    hide TargetedIn;
    var all := [b] + rest;
    if TargetedIn(b.ops, id) {
      assert all[0] == b;
    }
    if TargetedByAny(rest, id) {
      var i :| 0 <= i < |rest| && TargetedIn(rest[i].ops, id);
      assert all[i + 1] == rest[i];
    }
  }

  /** What a file of `st` is once the patches have been applied and rolled back. */
  ghost function AfterUndo(env: Env, st: Store, batches: seq<Batch>, id: nat): FileView {
    if TargetedByAny(batches, id) then Reread(env, ViewOf(st, id)) else ViewOf(st, id)
  }

  /** `t` holds all of `st` again, its targeted files with the text read from them; whatever else it holds is gone. */
  ghost predicate Undone(env: Env, st: Store, batches: seq<Batch>, t: Store) {
    && (forall id <- st.records :: ViewOf(t, id) == AfterUndo(env, st, batches, id))
    && (forall id <- t.records :: id !in st.records ==> Gone(ViewOf(t, id)))
    && forall id <- t.fileIds :: id in t.records
  }

  lemma RestoreKeepsListed(st: Store, item: Item)
    requires forall id <- st.fileIds :: id in st.records
    ensures forall id <- RestoreItem(st, item).fileIds :: id in RestoreItem(st, item).records
  {
    hide SizeOf;
    if item.CreatedItem? {
      forall id | id in Without(st.fileIds, item.file) ensures id in st.records {
        WithoutMember(st.fileIds, item.file, id);
      }
    }
  }

  lemma {:induction false} RestoreAllKeepsListed(st: Store, items: seq<Item>)
    requires forall id <- st.fileIds :: id in st.records
    ensures forall id <- RestoreAll(st, items).fileIds :: id in RestoreAll(st, items).records
    decreases |items|
  {
    hide RestoreItem;
    if items != [] {
      RestoreKeepsListed(st, items[0]);
      RestoreAllKeepsListed(RestoreItem(st, items[0]), items[1..]);
    }
  }

  lemma LeftoversUntouched(env: Env, st: Store, ops: seq<RawOp>, t: Store, id: nat)
    requires Orderly(st) && DistinctTargets(st, ops) && ApplyAll(env, st, ops).ok
    requires id !in ApplyAll(env, st, ops).store.records
    ensures ViewOf(RestoreAll(t, ApplyAll(env, st, ops).items), id) == ViewOf(t, id)
  {
    hide ViewOf, Orderly, DistinctTargets;
    forall k | 0 <= k < |ApplyAll(env, st, ops).items| ensures !Touches(ApplyAll(env, st, ops).items[k], id) {
      ItemsKnown(env, st, ops, k);
    }
    RestoreAllElsewhere(t, ApplyAll(env, st, ops).items, id);
  }

  lemma {:induction false} ItemsKnown(env: Env, st: Store, ops: seq<RawOp>, k: nat)
    requires Orderly(st) && k < |ApplyAll(env, st, ops).items|
    ensures var p := ApplyAll(env, st, ops); p.items[k].FolderItem? || p.items[k].file in p.store.records
    decreases |ops|
  {
    hide Orderly, Effect, Appliable;
    var (st1, item) := Effect(env, st, ops[0]);
    EffectKeepsOrder(env, st, ops[0]);
    if k == 0 {
      ItemKnown(env, st, ops[0]);
      ApplyAllKeepsOrder(env, st1, ops[1..]);
    } else {
      ItemsKnown(env, st1, ops[1..], k - 1);
    }
  }

  lemma ItemKnown(env: Env, st: Store, op: RawOp)
    requires Appliable(env, st, op)
    ensures var (st1, item) := Effect(env, st, op); item.FolderItem? || item.file in st1.records
  {
    hide NewText, KindOf;
  }

  lemma AfterUndoSamePlace(env: Env, st: Store, batches: seq<Batch>, id: nat)
    requires id in st.records
    ensures SamePlace(AfterUndo(env, st, batches, id), ViewOf(st, id))
  {
    hide TargetedByAny, SizeOf;
  }

  lemma FileUndone(env: Env, st: Store, b: Batch, rest: seq<Batch>, t: Store, id: nat)
    requires Orderly(st) && DistinctTargets(st, b.ops) && ApplyBatch(env, st, b).ok && id in st.records
    requires id in ApplyBatch(env, st, b).store.records
    requires ViewOf(t, id) == AfterUndo(env, ApplyBatch(env, st, b).store, rest, id)
    ensures ViewOf(RestoreAll(t, ApplyBatch(env, st, b).items), id) == AfterUndo(env, st, [b] + rest, id)
  {
    hide Orderly, DistinctTargets, ViewOf, ApplyAll, RestoreAll, TargetedIn, TargetedByAny, SamePlace;
    var p, own := ApplyBatch(env, st, b), EnvFor(env, b);
    TargetedByFirst(b, rest, id);
    if TargetedIn(b.ops, id) {
      AfterUndoSamePlace(env, p.store, rest, id);
      FileRestored(own, st, b.ops, t, id);
      assert Reread(own, ViewOf(st, id)) == Reread(env, ViewOf(st, id));
    } else {
      UntargetedKept(own, st, b.ops, t, id);
    }
  }

  /** Rolling a snapshot back on a store that holds the state right after its patch brings back the state before, each
      targeted file with the text read from it. */
  lemma {:induction false} SnapshotUndone(env: Env, st: Store, b: Batch, rest: seq<Batch>, t: Store)
    requires Orderly(st) && DistinctTargets(st, b.ops) && ApplyBatch(env, st, b).ok
    requires Undone(env, ApplyBatch(env, st, b).store, rest, t)
    ensures Undone(env, st, [b] + rest, RestoreAll(t, ApplyBatch(env, st, b).items))
  {
    hide ViewOf, Orderly, DistinctTargets, ApplyAll, RestoreAll, Gone, AfterUndo;
    var p := ApplyBatch(env, st, b);
    var t' := RestoreAll(t, p.items);
    ApplyAllKeepsOrder(EnvFor(env, b), st, b.ops);
    RestoreAllKeepsKeys(t, p.items);
    RestoreAllKeepsListed(t, p.items);
    forall id | id in st.records ensures ViewOf(t', id) == AfterUndo(env, st, [b] + rest, id) {
      FileUndone(env, st, b, rest, t, id);
    }
    forall id | id in t'.records && id !in st.records ensures Gone(ViewOf(t', id)) {
      if id in p.store.records {
        CreatedTakenBack(EnvFor(env, b), st, b.ops, t, id);
      } else {
        LeftoversUntouched(EnvFor(env, b), st, b.ops, t, id);
      }
    }
  }

  lemma NothingUndone(env: Env, st: Store)
    requires Orderly(st)
    ensures Undone(env, st, [], st)
  {
  }

  lemma SameListing(env: Env, st: Store, batches: seq<Batch>, t: Store)
    requires Orderly(st) && Undone(env, st, batches, t)
    ensures forall id :: id in t.fileIds <==> id in st.fileIds
  {
    hide TargetedByAny, SizeOf;
    forall id ensures id in t.fileIds <==> id in st.fileIds {
      if id in st.records {
        assert ViewOf(t, id).listed == ViewOf(st, id).listed;
      } else if id in t.records {
        assert !ViewOf(t, id).listed;
      }
    }
  }

  lemma RereadIsSame(env: Env, v: FileView)
    requires v.record.Some? && v.record.value.status == Active && Agrees(v)
    ensures Reread(env, v) == v <==> ReadsBack(env, v)
  {
    hide SizeOf;
  }

  /** A file comes back exactly as it was if and only if the patches do not target it or its object reads back as itself. */
  lemma {:induction false} RestoredIff(env: Env, st: Store, batches: seq<Batch>, t: Store, id: nat)
    requires Undone(env, st, batches, t) && id in st.records && AgreesAt(st, id)
    requires TargetedByAny(batches, id) ==> st.records[id].status == Active
    ensures ViewOf(t, id) == ViewOf(st, id) <==> (!TargetedByAny(batches, id) || ReadsBack(env, ViewOf(st, id)))
  {
    hide TargetedByAny, Reread, ReadsBack;
    assert ViewOf(t, id) == AfterUndo(env, st, batches, id);
    if TargetedByAny(batches, id) {
      RereadIsSame(env, ViewOf(st, id));
    }
  }

  lemma TargetedIsActive(st: Store, ops: seq<RawOp>, id: nat)
    requires DistinctTargets(st, ops) && TargetedIn(ops, id)
    ensures id in st.records && st.records[id].status == Active
  {
    hide Targeted;
    var i :| 0 <= i < |ops| && Targeted(ops[i]) && Target(ops[i]) == Some(id);
  }

  lemma OnlyBatch(b: Batch, id: nat)
    ensures TargetedByAny([b], id) <==> TargetedIn(b.ops, id)
  {
    hide TargetedIn;
    assert [b] == [b] + [];
    TargetedByFirst(b, [], id);
  }

  /** One apply followed by one rollback, for any mix of operations on distinct active files: a file comes back exactly
      as it was if and only if it is not targeted or its object reads back as itself; the session's file set comes back,
      created files stay behind deleted, and folders come back unless the patch names them again. */
  lemma {:induction false} ApplyThenRollback(env: Env, w: Work, ops: seq<RawOp>)
    requires Orderly(w.store) && Consistent(w.store) && DistinctTargets(w.store, ops) && ApplyAll(env, w.store, ops).ok
    ensures var r := Rollback(ApplyPatch(env, w, ops), None);
      && r.Ok? && Undone(env, w.store, [Batch(ops, env.selected, env.rejected)], r.value.store)
      && (forall id <- w.store.records :: ViewOf(r.value.store, id) == ViewOf(w.store, id) <==>
            (!TargetedIn(ops, id) || ReadsBack(env, ViewOf(w.store, id))))
      && (forall id :: id in r.value.store.fileIds <==> id in w.store.fileIds)
      && (forall f :: f in r.value.store.folders <==> f in w.store.folders && !SomeNames(ops, f))
  {
    hide Orderly, DistinctTargets, ApplyAll, RestoreAll, Undone, SomeNames, ViewOf, ReadsBack, TargetedIn, TargetedByAny, Consistent;
    var p, b := ApplyAll(env, w.store, ops), Batch(ops, env.selected, env.rejected);
    var t := RestoreAll(p.store, p.items);
    assert EnvFor(env, b) == env;
    ApplyAllKeepsOrder(env, w.store, ops);
    NothingUndone(env, p.store);
    SnapshotUndone(env, w.store, b, [], p.store);
    assert [b] + [] == [b];
    SameListing(env, w.store, [b], t);
    forall id | id in w.store.records
      ensures ViewOf(t, id) == ViewOf(w.store, id) <==> (!TargetedIn(ops, id) || ReadsBack(env, ViewOf(w.store, id)))
    {
      OnlyBatch(b, id);
      if TargetedIn(ops, id) {
        TargetedIsActive(w.store, ops, id);
      }
      ConsistentAt(w.store, id);
      RestoredIff(env, w.store, [b], t, id);
    }
    forall f ensures f in t.folders <==> f in w.store.folders && !SomeNames(ops, f) {
      FoldersRestored(env, w.store, ops, f);
    }
  }

  lemma ConsistentAt(st: Store, id: nat)
    requires Consistent(st) && id in st.records
    ensures AgreesAt(st, id)
  {
  }

  /** A reader that rewrites an object does not give it back: deleting such a file and rolling back leaves another text. */
  lemma {:induction false} RewrittenNotRestored(env: Env, st: Store, op: RawOp)
    requires Orderly(st) && Consistent(st) && KindOf(op) == Delete && Targeted(op) && GoodTarget(st, op)
    requires Appliable(env, st, op) && Read(env, st, Target(op).value) != Some(st.objects[Target(op).value])
    ensures var r := Rollback(ApplyPatch(env, Work(st, []), [op]), None);
      r.Ok? && ViewOf(r.value.store, Target(op).value) != ViewOf(st, Target(op).value)
  {
    hide Orderly, KindOf, SafeFilename, NewText, RestoreAll;
    var id := Target(op).value;
    assert [op][1..] == [];
    assert ApplyAll(env, st, [op]).ok;
    assert TargetedIn([op], id);
    assert DistinctTargets(st, [op]);
    ConsistentAt(st, id);
    ApplyThenRollback(env, Work(st, []), [op]);
  }

  lemma PlainNameIsSafe(name: string)
    requires |name| > 2 && forall i :: 0 <= i < |name| ==> name[i] != '/' && name[i] != '\\'
    ensures SafeFilename(name).Ok?
  {
    BaseNameFixed(name);
    var s := "/" + name + "/";
    forall i | 0 <= i <= |s| - 4 ensures s[i..][..4] != "/../" {
      assert s[i..][..4][0] == s[i] && s[i..][..4][3] == s[i + 3];
      assert "/../"[0] == '/' && "/../"[3] == '/';
      assert i > 0 ==> s[i] == name[i - 1];
      assert i + 3 < |s| - 1 ==> s[i + 3] == name[i + 2];
    }
    assert name[..3][2] == name[2] && "../"[2] == '/';
  }

  const ONE_LINE: Lines := ["{\"a\":1}"]

  const INDENTED: Lines := ["{", "  \"a\": 1", "}"]

  /** A package.json kept on one line is read with indentation; deleting it and rolling back does not restore it. */
  lemma {:induction false} JsonIsNotRestored(env: Env)
    requires env.read("package.json", ONE_LINE) == Some(INDENTED)
    ensures var record := Record("package.json", Active, SizeOf(ONE_LINE), Sha256(ONE_LINE));
      var st := Store(map[0 := record], map[0 := ONE_LINE], [0], [], 1);
      var op := RawOp("delete", "", "op-0", "", FileId(0), "package.json", "", []);
      var r := Rollback(ApplyPatch(env, Work(st, []), [op]), None);
      r.Ok? && ViewOf(r.value.store, 0) != ViewOf(st, 0)
  {
    hide SafeFilename, RestoreAll, ApplyAll, SizeOf;
    var record := Record("package.json", Active, SizeOf(ONE_LINE), Sha256(ONE_LINE));
    var st := Store(map[0 := record], map[0 := ONE_LINE], [0], [], 1);
    var op := RawOp("delete", "", "op-0", "", FileId(0), "package.json", "", []);
    PlainNameIsSafe("package.json");
    assert "delete"[0] == 'd' && "create"[0] == 'c';
    assert KindOf(op) == Delete;
    assert |ONE_LINE| == 1 && |INDENTED| == 3;
    RewrittenNotRestored(env, st, op);
  }

  // ----- The undo stack -----

  function ApplyMany(env: Env, w: Work, batches: seq<Batch>): Work
    decreases |batches|
  {
    if batches == [] then w else ApplyMany(env, ApplyPatch(EnvFor(env, batches[0]), w, batches[0].ops), batches[1..])
  }

  /** `n` times rollback_last_apply; a refused call changes nothing. */
  function UndoMany(w: Work, n: nat): Work
    decreases n
  {
    if n == 0 then w
    else
      var r := Rollback(w, None);
      UndoMany(if r.Ok? then r.value else w, n - 1)
  }

  /** Every patch targets distinct active files and is applied in full. */
  ghost predicate AllApply(env: Env, st: Store, batches: seq<Batch>)
    decreases |batches|
  {
    batches != [] ==>
      && DistinctTargets(st, batches[0].ops) && ApplyBatch(env, st, batches[0]).ok
      && AllApply(env, ApplyBatch(env, st, batches[0]).store, batches[1..])
  }

  /** The snapshots the patches leave. */
  function Trail(env: Env, st: Store, batches: seq<Batch>): (trail: seq<Snapshot>)
    ensures |trail| == |batches|
    decreases |batches|
  {
    if batches == [] then []
    else
      var p := ApplyBatch(env, st, batches[0]);
      [p.items] + Trail(env, p.store, batches[1..])
  }

  function StoreAfter(env: Env, st: Store, batches: seq<Batch>): Store
    decreases |batches|
  {
    if batches == [] then st else StoreAfter(env, ApplyBatch(env, st, batches[0]).store, batches[1..])
  }

  /** The snapshots restored from the newest to the oldest. */
  function UndoTrail(t: Store, trail: seq<Snapshot>): Store
    decreases |trail|
  {
    if trail == [] then t else UndoTrail(RestoreAll(t, trail[|trail| - 1]), trail[..|trail| - 1])
  }

  lemma {:induction false} UndoTrailFirst(t: Store, first: Snapshot, trail: seq<Snapshot>)
    ensures UndoTrail(t, [first] + trail) == RestoreAll(UndoTrail(t, trail), first)
    decreases |trail|
  {
    var whole := [first] + trail;
    if trail == [] {
      assert whole[..|whole| - 1] == [];
    } else {
      assert whole[|whole| - 1] == trail[|trail| - 1];
      assert whole[..|whole| - 1] == [first] + trail[..|trail| - 1];
      UndoTrailFirst(RestoreAll(t, trail[|trail| - 1]), first, trail[..|trail| - 1]);
    }
  }

  lemma {:induction false} TrailUndone(env: Env, st: Store, batches: seq<Batch>, t: Store)
    requires Orderly(st) && AllApply(env, st, batches)
    requires Undone(env, StoreAfter(env, st, batches), [], t)
    ensures Undone(env, st, batches, UndoTrail(t, Trail(env, st, batches)))
    decreases |batches|
  {
    hide Orderly, Undone, DistinctTargets, ApplyAll, RestoreAll;
    if batches != [] {
      var p := ApplyBatch(env, st, batches[0]);
      ApplyAllKeepsOrder(EnvFor(env, batches[0]), st, batches[0].ops);
      TrailUndone(env, p.store, batches[1..], t);
      UndoTrailFirst(t, p.items, Trail(env, p.store, batches[1..]));
      SnapshotUndone(env, st, batches[0], batches[1..], UndoTrail(t, Trail(env, p.store, batches[1..])));
      assert batches == [batches[0]] + batches[1..];
    } else {
      assert batches == [];
    }
  }

  lemma {:induction false} TargetedByAnyIsActive(env: Env, st: Store, batches: seq<Batch>, id: nat)
    requires Orderly(st) && AllApply(env, st, batches) && id in st.records && TargetedByAny(batches, id)
    ensures st.records[id].status == Active
    decreases |batches|
  {
    hide Orderly, DistinctTargets, ApplyAll, TargetedIn;
    SomeBatch(batches, id);
    assert batches == [batches[0]] + batches[1..];
    TargetedByFirst(batches[0], batches[1..], id);
    if TargetedIn(batches[0].ops, id) {
      TargetedIsActive(st, batches[0].ops, id);
    } else {
      var p := ApplyBatch(env, st, batches[0]);
      ApplyAllKeepsOrder(EnvFor(env, batches[0]), st, batches[0].ops);
      UntargetedKept(EnvFor(env, batches[0]), st, batches[0].ops, st, id);
      TargetedByAnyIsActive(env, p.store, batches[1..], id);
      assert ViewOf(p.store, id) == ViewOf(st, id);
    }
  }

  lemma SomeBatch(batches: seq<Batch>, id: nat)
    requires TargetedByAny(batches, id)
    ensures batches != []
  {
  }

  predicate EndsIn(snapshots: seq<Snapshot>, tail: seq<Snapshot>) {
    |tail| <= |snapshots| && snapshots[|snapshots| - |tail|..] == tail
  }

  lemma PushKeepsNewest(snapshots: seq<Snapshot>, items: Snapshot, tail: seq<Snapshot>)
    requires EndsIn(snapshots, tail) && |tail| <= 10
    ensures EndsIn(Push(snapshots, items), tail + [items])
  {
    var pushed := Push(snapshots, items);
    assert pushed[|pushed| - (|tail| + 1)..] == snapshots[|snapshots| - |tail|..] + [items];
  }

  /** As long as eleven suffice, the stack ends with the snapshots of all the patches. */
  lemma {:induction false} StackHoldsTrail(env: Env, w: Work, batches: seq<Batch>, tail: seq<Snapshot>)
    requires EndsIn(w.snapshots, tail) && |tail| + |batches| <= 11 && AllApply(env, w.store, batches)
    ensures var r := ApplyMany(env, w, batches);
      r.store == StoreAfter(env, w.store, batches) && EndsIn(r.snapshots, tail + Trail(env, w.store, batches))
    decreases |batches|
  {
    hide DistinctTargets, ApplyAll, Push, EndsIn;
    if batches == [] {
      assert tail + [] == tail;
    } else {
      var p := ApplyBatch(env, w.store, batches[0]);
      PushKeepsNewest(w.snapshots, p.items, tail);
      StackHoldsTrail(env, ApplyPatch(EnvFor(env, batches[0]), w, batches[0].ops), batches[1..], tail + [p.items]);
      assert tail + [p.items] + Trail(env, p.store, batches[1..]) == tail + ([p.items] + Trail(env, p.store, batches[1..]));
    }
  }

  lemma {:induction false} UndoManyIsTrail(w: Work, n: nat)
    requires n <= |w.snapshots|
    ensures UndoMany(w, n).store == UndoTrail(w.store, w.snapshots[|w.snapshots| - n..])
    ensures |UndoMany(w, n).snapshots| == |w.snapshots| - n
    decreases n
  {
    hide RestoreAll;
    if n > 0 {
      var last := |w.snapshots| - 1;
      var w1 := Rollback(w, None).value;
      assert w1.snapshots == w.snapshots[..last];
      UndoManyIsTrail(w1, n - 1);
      var trail := w.snapshots[|w.snapshots| - n..];
      assert trail[..|trail| - 1] == w1.snapshots[|w1.snapshots| - (n - 1)..];
    } else {
      assert w.snapshots[|w.snapshots|..] == [];
    }
  }

  predicate NamedByAny(batches: seq<Batch>, folder: string) {
    exists i :: 0 <= i < |batches| && SomeNames(batches[i].ops, folder)
  }

  lemma {:induction false} TrailFolders(env: Env, st: Store, batches: seq<Batch>, t: Store, folder: string)
    requires AllApply(env, st, batches)
    requires folder in t.folders <==> folder in StoreAfter(env, st, batches).folders
    ensures folder in UndoTrail(t, Trail(env, st, batches)).folders <==> folder in st.folders && !NamedByAny(batches, folder)
    decreases |batches|
  {
    hide DistinctTargets, ApplyAll, RestoreAll, SomeNames;
    if batches != [] {
      var p := ApplyBatch(env, st, batches[0]);
      var rest := Trail(env, p.store, batches[1..]);
      FoldersAfterApply(EnvFor(env, batches[0]), st, batches[0].ops, folder);
      TrailFolders(env, p.store, batches[1..], t, folder);
      UndoTrailFirst(t, p.items, rest);
      FoldersAfterRestore(UndoTrail(t, rest), p.items, folder);
      NamedFirst(batches, folder);
    }
  }

  lemma NamedFirst(batches: seq<Batch>, folder: string)
    requires batches != []
    ensures NamedByAny(batches, folder) <==> SomeNames(batches[0].ops, folder) || NamedByAny(batches[1..], folder)
  {
    hide SomeNames;
    if NamedByAny(batches[1..], folder) {
      var i :| 0 <= i < |batches[1..]| && SomeNames(batches[1..][i].ops, folder);
      assert SomeNames(batches[i + 1].ops, folder);
    }
    if NamedByAny(batches, folder) {
      var i :| 0 <= i < |batches| && SomeNames(batches[i].ops, folder);
      if i > 0 {
        assert batches[1..][i - 1] == batches[i];
      }
    }
  }

  /** After any n <= 11 applies and n rollbacks a file is exactly as it was if and only if no patch targets it or its
      object reads back as itself; the session's file set is as it was, and so are the folders, except those a patch
      named again. */
  lemma {:induction false} UndoStack(env: Env, w: Work, batches: seq<Batch>)
    requires Orderly(w.store) && Consistent(w.store) && AllApply(env, w.store, batches) && |batches| <= 11
    ensures var r := UndoMany(ApplyMany(env, w, batches), |batches|).store;
      && Undone(env, w.store, batches, r)
      && (forall id <- w.store.records :: ViewOf(r, id) == ViewOf(w.store, id) <==>
            (!TargetedByAny(batches, id) || ReadsBack(env, ViewOf(w.store, id))))
      && (forall id :: id in r.fileIds <==> id in w.store.fileIds)
      && forall f :: f in r.folders <==> f in w.store.folders && !NamedByAny(batches, f)
  {
    hide Orderly, Consistent, AllApply, Undone, UndoMany, UndoTrail, Trail, StoreAfter, ApplyMany, NamedByAny, ViewOf,
      ReadsBack, TargetedByAny;
    var done := ApplyMany(env, w, batches);
    var r := UndoMany(done, |batches|).store;
    StackHoldsTrail(env, w, batches, []);
    assert [] + Trail(env, w.store, batches) == Trail(env, w.store, batches);
    UndoManyIsTrail(done, |batches|);
    StoreAfterOrderly(env, w.store, batches);
    NothingUndone(env, StoreAfter(env, w.store, batches));
    TrailUndone(env, w.store, batches, done.store);
    SameListing(env, w.store, batches, r);
    forall id | id in w.store.records
      ensures ViewOf(r, id) == ViewOf(w.store, id) <==>
        (!TargetedByAny(batches, id) || ReadsBack(env, ViewOf(w.store, id)))
    {
      if TargetedByAny(batches, id) {
        TargetedByAnyIsActive(env, w.store, batches, id);
      }
      ConsistentAt(w.store, id);
      RestoredIff(env, w.store, batches, r, id);
    }
    forall f ensures f in r.folders <==> f in w.store.folders && !NamedByAny(batches, f) {
      TrailFolders(env, w.store, batches, done.store, f);
    }
  }

  lemma {:induction false} StoreAfterOrderly(env: Env, st: Store, batches: seq<Batch>)
    requires Orderly(st)
    ensures Orderly(StoreAfter(env, st, batches))
    decreases |batches|
  {
    hide Orderly, ApplyAll;
    if batches != [] {
      ApplyAllKeepsOrder(EnvFor(env, batches[0]), st, batches[0].ops);
      StoreAfterOrderly(env, ApplyBatch(env, st, batches[0]).store, batches[1..]);
    }
  }

  lemma {:induction false} StackIsBounded(env: Env, w: Work, batches: seq<Batch>)
    requires |w.snapshots| <= 11
    ensures |ApplyMany(env, w, batches).snapshots| <= 11
    decreases |batches|
  {
    hide ApplyAll;
    if batches != [] {
      StackIsBounded(env, ApplyPatch(EnvFor(env, batches[0]), w, batches[0].ops), batches[1..]);
    }
  }

  /** A twelfth rollback in a row is refused, however many patches were applied. */
  lemma {:induction false} TwelfthUndoIsRefused(env: Env, w: Work, batches: seq<Batch>)
    requires |w.snapshots| <= 11
    ensures Rollback(UndoMany(ApplyMany(env, w, batches), 11), None).Err?
  {
    StackIsBounded(env, w, batches);
    EmptiedStack(ApplyMany(env, w, batches), 11);
  }

  lemma {:induction false} EmptiedStack(w: Work, n: nat)
    requires |w.snapshots| <= n
    ensures UndoMany(w, n).snapshots == []
    decreases n
  {
    hide RestoreAll;
    if n > 0 {
      var r := Rollback(w, None);
      EmptiedStack(if r.Ok? then r.value else w, n - 1);
    }
  }
}
