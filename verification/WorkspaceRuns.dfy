// Several operations on one file, and whole runs of applies and rollbacks.
module WorkspaceRuns {
  import opened EditScripts
  import opened PatchPayload
  import opened Workspace
  import opened WorkspaceFailures
  import opened WorkspaceFiles
  import opened WorkspaceUndo
  import opened Wrappers

  // ----- Several operations on one file -----

  /** What a snapshot holds about a file: the last text captured, the last name captured, and whether a deletion. */
  datatype Mark = Mark(text: Option<Lines>, name: Option<string>, deleted: bool)

  const NO_MARK := Mark(None, None, false)

  function MarkOf(item: Item, id: nat): Mark {
    match item
    case DeletedItem(file, content) => if file == id then Mark(Some(content), None, true) else NO_MARK
    case RenamedItem(file, content, name) => if file == id then Mark(Some(content), Some(name), false) else NO_MARK
    case ModifiedItem(file, content) => if file == id then Mark(Some(content), None, false) else NO_MARK
    case _ => NO_MARK
  }

  function Later<T>(first: Option<T>, second: Option<T>): Option<T> {
    if second.Some? then second else first
  }

  function Recorded(items: seq<Item>, id: nat): Mark {
    if items == [] then NO_MARK
    else
      var own, rest := MarkOf(items[0], id), Recorded(items[1..], id);
      Mark(Later(own.text, rest.text), Later(own.name, rest.name), own.deleted || rest.deleted)
  }

  /** The file once the mark has been restored over it. */
  function Overwrite(v: FileView, m: Mark): FileView
    requires v.record.Some?
  {
    if m.text.None? then v
    else
      var r, text := v.record.value, m.text.value;
      FileView(
        Some(Record(if m.name.Some? then m.name.value else r.filename, if m.deleted then Active else r.status,
                    SizeOf(text), Sha256(text))),
        Some(text), v.listed || m.deleted)
  }

  /** The items about the file are none of its creation, and carry names. */
  ghost predicate Restorable(items: seq<Item>, id: nat) {
    forall k :: 0 <= k < |items| && Touches(items[k], id) ==>
      !items[k].CreatedItem? && (items[k].RenamedItem? ==> items[k].originalName != "")
  }

  lemma RestoreOneMark(t: Store, item: Item, id: nat)
    requires id in t.records && Restorable([item], id)
    ensures ViewOf(RestoreItem(t, item), id) == Overwrite(ViewOf(t, id), MarkOf(item, id))
  {
    hide SizeOf;
    assert [item][0] == item;
    if !Touches(item, id) {
      RestoreElsewhere(t, item, id);
    }
  }

  lemma OverwriteTwice(v: FileView, a: Mark, b: Mark)
    requires v.record.Some? && (a.text.None? ==> a == NO_MARK) && (b.text.None? ==> b == NO_MARK)
    ensures Overwrite(Overwrite(v, a), b) == Overwrite(v, Mark(Later(a.text, b.text), Later(a.name, b.name), a.deleted || b.deleted))
  {
    hide SizeOf;
  }

  lemma {:induction false} RecordedIsMark(items: seq<Item>, id: nat)
    ensures Recorded(items, id).text.None? ==> Recorded(items, id) == NO_MARK
  {
    if items != [] {
      RecordedIsMark(items[1..], id);
    }
  }

  /** Restoring a snapshot first item first leaves the last text, the last name, and an active file after a deletion. */
  lemma {:induction false} RestoredView(t: Store, items: seq<Item>, id: nat)
    requires id in t.records && Restorable(items, id)
    ensures ViewOf(RestoreAll(t, items), id) == Overwrite(ViewOf(t, id), Recorded(items, id))
    decreases |items|
  {
    hide RestoreItem, MarkOf, Overwrite, Touches;
    if items != [] {
      assert [items[0]][0] == items[0];
      RestoreOneMark(t, items[0], id);
      RestoreKeepsKeys(t, items[0]);
      forall k | 0 <= k < |items[1..]| && Touches(items[1..][k], id)
        ensures !items[1..][k].CreatedItem? && (items[1..][k].RenamedItem? ==> items[1..][k].originalName != "")
      {
        assert items[1..][k] == items[k + 1];
      }
      RestoredView(RestoreItem(t, items[0]), items[1..], id);
      RecordedIsMark(items[1..], id);
      MarkIsMark(items[0], id);
      OverwriteTwice(ViewOf(t, id), MarkOf(items[0], id), Recorded(items[1..], id));
    } else {
      OverwriteNothing(ViewOf(t, id));
    }
  }

  lemma OverwriteNothing(v: FileView)
    requires v.record.Some?
    ensures Overwrite(v, NO_MARK) == v
  {
  }

  lemma MarkIsMark(item: Item, id: nat)
    ensures MarkOf(item, id).text.None? ==> MarkOf(item, id) == NO_MARK
  {
  }

  // ----- What the operations leave in the mark -----

  predicate On(op: RawOp, id: nat) {
    Targeted(op) && Target(op) == Some(id)
  }

  function LastOn(ops: seq<RawOp>, id: nat): (k: Option<nat>)
    ensures k.Some? ==> k.value < |ops| && On(ops[k.value], id)
  {
    if ops == [] then None
    else
      var rest := LastOn(ops[1..], id);
      if rest.Some? then Some(rest.value + 1) else if On(ops[0], id) then Some(0) else None
  }

  function LastRenameOn(ops: seq<RawOp>, id: nat): (k: Option<nat>)
    ensures k.Some? ==> k.value < |ops| && On(ops[k.value], id) && KindOf(ops[k.value]) == Rename
  {
    if ops == [] then None
    else
      var rest := LastRenameOn(ops[1..], id);
      if rest.Some? then Some(rest.value + 1)
      else if On(ops[0], id) && KindOf(ops[0]) == Rename then Some(0)
      else None
  }

  predicate DeletesOn(ops: seq<RawOp>, id: nat) {
    exists k :: 0 <= k < |ops| && On(ops[k], id) && KindOf(ops[k]) == Delete
  }

  /** The store just before operation `k`. */
  function StoreBefore(env: Env, st: Store, ops: seq<RawOp>, k: nat): Store
    requires k <= |ops|
  {
    ApplyAll(env, st, ops[..k]).store
  }

  function NameIn(st: Store, id: nat): string {
    if id in st.records then st.records[id].filename else ""
  }

  /** The last text the operations read from the file, its name before the last renaming, and whether they delete it. */
  ghost function MarkLeft(env: Env, st: Store, ops: seq<RawOp>, id: nat): Mark {
    var last, renamed := LastOn(ops, id), LastRenameOn(ops, id);
    Mark(if last.Some? then Some(OldText(env, StoreBefore(env, st, ops, last.value), ops[last.value])) else None,
         if renamed.Some? then Some(NameIn(StoreBefore(env, st, ops, renamed.value), id)) else None,
         DeletesOn(ops, id))
  }

  lemma StoreBeforeLater(env: Env, st: Store, ops: seq<RawOp>, k: nat)
    requires ops != [] && Appliable(env, st, ops[0]) && k < |ops|
    ensures StoreBefore(env, st, ops, k + 1) == StoreBefore(env, Effect(env, st, ops[0]).0, ops[1..], k)
    ensures StoreBefore(env, st, ops, 0) == st
  {
    hide Effect, Appliable;
    assert ops[..k + 1][0] == ops[0] && ops[..k + 1][1..] == ops[1..][..k];
    assert ops[..0] == [];
  }

  lemma DeletesFirst(ops: seq<RawOp>, id: nat)
    requires ops != []
    ensures DeletesOn(ops, id) <==> (On(ops[0], id) && KindOf(ops[0]) == Delete) || DeletesOn(ops[1..], id)
  {
    hide On, KindOf;
    if DeletesOn(ops[1..], id) {
      var k :| 0 <= k < |ops[1..]| && On(ops[1..][k], id) && KindOf(ops[1..][k]) == Delete;
      assert ops[k + 1] == ops[1..][k];
    }
    if DeletesOn(ops, id) {
      var k :| 0 <= k < |ops| && On(ops[k], id) && KindOf(ops[k]) == Delete;
      if k > 0 {
        assert ops[1..][k - 1] == ops[k];
      }
    }
  }

  lemma ItemMark(env: Env, st: Store, op: RawOp, id: nat)
    requires Appliable(env, st, op)
    ensures MarkOf(Effect(env, st, op).1, id) ==
      Mark(if On(op, id) then Some(OldText(env, st, op)) else None,
           if On(op, id) && KindOf(op) == Rename then Some(NameIn(st, id)) else None,
           On(op, id) && KindOf(op) == Delete)
  {
    hide NewText, KindOf, SafeFilename;
  }

  /** The snapshot of a patch holds exactly that mark. */
  lemma {:induction false} SnapshotHoldsMark(env: Env, st: Store, ops: seq<RawOp>, id: nat)
    requires ApplyAll(env, st, ops).ok
    ensures Recorded(ApplyAll(env, st, ops).items, id) == MarkLeft(env, st, ops, id)
    decreases |ops|
  {
    hide Effect, Appliable, MarkOf, On, KindOf, OldText, NameIn, StoreBefore;
    if ops != [] {
      var (st1, item) := Effect(env, st, ops[0]);
      SnapshotHoldsMark(env, st1, ops[1..], id);
      ItemMark(env, st, ops[0], id);
      DeletesFirst(ops, id);
      forall k: nat | k < |ops| ensures StoreBefore(env, st, ops, k + 1) == StoreBefore(env, st1, ops[1..], k) {
        StoreBeforeLater(env, st, ops, k);
      }
      StoreBeforeLater(env, st, ops, 0);
      assert ApplyAll(env, st, ops).items[1..] == ApplyAll(env, st1, ops[1..]).items;
    }
  }

  lemma EffectOnPlace(env: Env, st: Store, op: RawOp, id: nat)
    requires Orderly(st) && Appliable(env, st, op) && id in st.records
    ensures var v, w, m := ViewOf(st, id), ViewOf(Effect(env, st, op).0, id), MarkOf(Effect(env, st, op).1, id);
      && w.record.Some?
      && (m.text.None? ==> w == v)
      && (m.name.None? ==> w.record.value.filename == v.record.value.filename)
      && (!m.deleted ==> w.record.value.status == v.record.value.status && w.listed == v.listed)
  {
    hide NewText, KindOf, SizeOf, SafeFilename;
    KnownIds(st, id);
    if !Touches(Effect(env, st, op).1, id) {
      EffectElsewhere(env, st, op, id);
    }
  }

  /** What the mark does not mention, the patch has not changed. */
  lemma {:induction false} PlaceAfterPatch(env: Env, st: Store, ops: seq<RawOp>, id: nat)
    requires Orderly(st) && id in st.records
    ensures var v, w, m := ViewOf(st, id), ViewOf(ApplyAll(env, st, ops).store, id), Recorded(ApplyAll(env, st, ops).items, id);
      && w.record.Some?
      && (m.text.None? ==> w == v)
      && (m.name.None? ==> w.record.value.filename == v.record.value.filename)
      && (!m.deleted ==> w.record.value.status == v.record.value.status && w.listed == v.listed)
    decreases |ops|
  {
    hide Orderly, ViewOf, Effect, Appliable, MarkOf;
    if ops != [] && Appliable(env, st, ops[0]) {
      var (st1, item) := Effect(env, st, ops[0]);
      EffectOnPlace(env, st, ops[0], id);
      EffectKeepsOrder(env, st, ops[0]);
      PlaceAfterPatch(env, st1, ops[1..], id);
      MarkIsMark(item, id);
      RecordedIsMark(ApplyAll(env, st1, ops[1..]).items, id);
      assert ApplyAll(env, st, ops).items[1..] == ApplyAll(env, st1, ops[1..]).items;
    } else {
      HasRecord(st, id);
    }
  }

  lemma ItemRestorable(env: Env, st: Store, op: RawOp, id: nat)
    requires Orderly(st) && Appliable(env, st, op) && id < st.nextId
    ensures var item := Effect(env, st, op).1;
      Touches(item, id) ==> !item.CreatedItem? && (item.RenamedItem? ==> item.originalName != "")
  {
    hide NewText, KindOf, SafeFilename;
  }

  lemma {:induction false} PatchRestorable(env: Env, st: Store, ops: seq<RawOp>, id: nat)
    requires Orderly(st) && id < st.nextId
    ensures Restorable(ApplyAll(env, st, ops).items, id)
    decreases |ops|
  {
    hide Orderly, Effect, Appliable, Touches;
    if ops != [] && Appliable(env, st, ops[0]) {
      var (st1, item) := Effect(env, st, ops[0]);
      ItemRestorable(env, st, ops[0], id);
      EffectKeepsOrder(env, st, ops[0]);
      PatchRestorable(env, st1, ops[1..], id);
      var items, rest := ApplyAll(env, st, ops).items, ApplyAll(env, st1, ops[1..]).items;
      forall k | 0 <= k < |items| && Touches(items[k], id)
        ensures !items[k].CreatedItem? && (items[k].RenamedItem? ==> items[k].originalName != "")
      {
        if k > 0 {
          assert items[k] == rest[k - 1];
        }
      }
    }
  }

  lemma OverwriteSamePlace(v: FileView, w: FileView, m: Mark)
    requires v.record.Some? && w.record.Some? && (m.text.None? ==> w == v)
    requires m.name.None? ==> w.record.value.filename == v.record.value.filename
    requires !m.deleted ==> w.record.value.status == v.record.value.status && w.listed == v.listed
    ensures Overwrite(w, m) == Overwrite(v, m)
  {
    hide SizeOf;
  }

  /** For any operations, however many on one file: rolling the patch back leaves the file with the last text that was read
      from it and the name it had before its last renaming, active and in the session if it was deleted. */
  lemma {:induction false} AnyPatchRollsBack(env: Env, st: Store, ops: seq<RawOp>, id: nat)
    requires Orderly(st) && id in st.records && ApplyAll(env, st, ops).ok
    ensures var p := ApplyAll(env, st, ops);
      ViewOf(RestoreAll(p.store, p.items), id) == Overwrite(ViewOf(st, id), MarkLeft(env, st, ops, id))
  {
    hide Orderly, ViewOf, ApplyAll, RestoreAll, Recorded, MarkLeft, Overwrite, Restorable;
    var p := ApplyAll(env, st, ops);
    KnownIds(st, id);
    PatchRestorable(env, st, ops, id);
    ApplyAllKeepsOrder(env, st, ops);
    RestoredView(p.store, p.items, id);
    SnapshotHoldsMark(env, st, ops, id);
    PlaceAfterPatch(env, st, ops, id);
    HasRecord(st, id);
    OverwriteSamePlace(ViewOf(st, id), ViewOf(p.store, id), Recorded(p.items, id));
  }

  lemma HasRecord(st: Store, id: nat)
    requires id in st.records
    ensures ViewOf(st, id).record.Some?
  {
  }

  /** So an active file is restored exactly if and only if no operation is on it, or the last text read is its own, and it
      had its own name before the last renaming, and it was in the session if it is deleted. */
  lemma {:induction false} AnyPatchRestoresIff(env: Env, st: Store, ops: seq<RawOp>, id: nat)
    requires Orderly(st) && id in st.records && ApplyAll(env, st, ops).ok
    requires st.records[id].status == Active && AgreesAt(st, id)
    ensures var p, m := ApplyAll(env, st, ops), MarkLeft(env, st, ops, id);
      ViewOf(RestoreAll(p.store, p.items), id) == ViewOf(st, id) <==>
        (LastOn(ops, id).None? ||
         (m.text == Some(st.objects[id]) && (m.name.Some? ==> m.name.value == st.records[id].filename) &&
          (m.deleted ==> id in st.fileIds)))
  {
    hide ApplyAll, RestoreAll, SizeOf, OldText, On, LastOn, LastRenameOn, StoreBefore, DeletesOn;
    AnyPatchRollsBack(env, st, ops, id);
  }

  lemma FirstStore(env: Env, st: Store, first: RawOp, second: RawOp)
    requires Appliable(env, st, first)
    ensures StoreBefore(env, st, [first, second], 1) == Effect(env, st, first).0
  {
    hide Effect, Appliable;
    assert [first, second][..1] == [first] && [first][1..] == [];
    assert ApplyAll(env, Effect(env, st, first).0, []).store == Effect(env, st, first).0;
  }

  /** Two edits of one file in one patch roll back to the text read after the first of them. */
  lemma {:induction false} TwoEditsRollBackToFirst(env: Env, st: Store, first: RawOp, second: RawOp)
    requires Orderly(st) && KindOf(first) == Modify && KindOf(second) == Modify && Target(first) == Target(second)
    requires GoodTarget(st, first) && ApplyAll(env, st, [first, second]).ok
    ensures var p, id := ApplyAll(env, st, [first, second]), Target(first).value;
      ViewOf(RestoreAll(p.store, p.items), id).text == env.read(st.records[id].filename, TextFor(env, st, first))
  {
    hide NewText, KindOf, SizeOf, SafeFilename, Orderly, RestoreAll;
    var ops, id := [first, second], Target(first).value;
    assert ops[1..] == [second] && [second][1..] == [] && ops[..1] == [first] && [first][1..] == [];
    var st1 := Effect(env, st, first).0;
    FirstStore(env, st, first, second);
    assert LastOn([second], id) == Some(0) && LastOn(ops, id) == Some(1);
    AnyPatchRollsBack(env, st, ops, id);
  }

  /** Two renamings of one file in one patch roll back to the name in between. */
  lemma {:induction false} TwoRenamesRollBackToSecond(env: Env, st: Store, first: RawOp, second: RawOp)
    requires Orderly(st) && KindOf(first) == Rename && KindOf(second) == Rename && Target(first) == Target(second)
    requires GoodTarget(st, first) && ApplyAll(env, st, [first, second]).ok
    ensures var p, id := ApplyAll(env, st, [first, second]), Target(first).value;
      && TargetName(st, first).Ok?
      && NameIn(RestoreAll(p.store, p.items), id) == TargetName(st, first).value
  {
    hide NewText, KindOf, SizeOf, SafeFilename, Orderly, RestoreAll;
    var ops, id := [first, second], Target(first).value;
    assert ops[1..] == [second] && [second][1..] == [] && ops[..1] == [first] && [first][1..] == [];
    var st1 := Effect(env, st, first).0;
    FirstStore(env, st, first, second);
    assert LastOn([second], id) == Some(0) && LastOn(ops, id) == Some(1);
    assert LastRenameOn([second], id) == Some(0) && LastRenameOn(ops, id) == Some(1);
    AnyPatchRollsBack(env, st, ops, id);
  }

  // ----- Whole runs -----

  datatype Action = ApplyAction(batch: Batch) | RollbackAction(index: Option<nat>)

  /** A refused rollback changes nothing. */
  function Do(env: Env, w: Work, a: Action): Work {
    match a
    case ApplyAction(b) => ApplyPatch(EnvFor(env, b), w, b.ops)
    case RollbackAction(index) =>
      var r := Rollback(w, index);
      if r.Ok? then r.value else w
  }

  function Run(env: Env, w: Work, actions: seq<Action>): Work
    decreases |actions|
  {
    if actions == [] then w else Run(env, Do(env, w, actions[0]), actions[1..])
  }

  /** The applies of the run go through. */
  ghost predicate AppliesSucceed(env: Env, w: Work, actions: seq<Action>)
    decreases |actions|
  {
    actions != [] ==>
      && (actions[0].ApplyAction? ==> ApplyBatch(env, w.store, actions[0].batch).ok)
      && AppliesSucceed(env, Do(env, w, actions[0]), actions[1..])
  }

  /** Through any run of successful applies and of rollbacks of any snapshots, every active record describes its
      stored object. */
  lemma {:induction false} RunConsistent(env: Env, w: Work, actions: seq<Action>)
    requires Orderly(w.store) && Consistent(w.store) && AppliesSucceed(env, w, actions)
    ensures Orderly(Run(env, w, actions).store) && Consistent(Run(env, w, actions).store)
    decreases |actions|
  {
    hide Orderly, Consistent, ApplyAll, RestoreAll;
    if actions != [] {
      match actions[0] {
        case ApplyAction(b) =>
          ApplyAllKeepsOrder(EnvFor(env, b), w.store, b.ops);
          ApplyAllConsistent(EnvFor(env, b), w.store, b.ops);
        case RollbackAction(index) =>
          var r := Rollback(w, index);
          if r.Ok? {
            var i := if index.Some? then index.value else |w.snapshots| - 1;
            RestoreAllKeepsOrder(w.store, w.snapshots[i]);
            RestoreAllConsistent(w.store, w.snapshots[i]);
          }
      }
      RunConsistent(env, Do(env, w, actions[0]), actions[1..]);
    }
  }
}
