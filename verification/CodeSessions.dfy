// A code session: its files, undo stack, pending patch and preview, and the calls that work on them
// (backend/services/agent/code_workspace.py). What a failing call had already committed, its preview, and the objects it
// had written, stay; everything else is undone.
module CodeSessions {
  import opened EditScripts
  import opened Hunks
  import opened PatchPayload
  import opened PatchSelection
  import opened Sublists
  import opened Workspace
  import opened WorkspacePreviews
  import opened Wrappers

  /** `rejected`: the hunks the user has rejected. */
  datatype Session = Session(work: Work, patch: Option<Payload>, preview: seq<PreviewItem>, rejected: set<string>)

  datatype Failure = NoPatch | BadPatch | NotAvailable | Unreadable | Conflict | ApplyFailed

  // ----- Preview -----

  function Previewed(env: Env, s: Session): Result<Session, Failure> {
    if s.patch.None? then Ok(s)
    else
      var ops := Normalize(s.patch.value);
      if ops.Err? then Err(BadPatch)
      else
        var items := PreviewAll(env, s.work.store, ops.value, s.preview);
        if items.Err? then Err(Unreadable) else Ok(s.(preview := items.value))
  }

  /** generate_patch: the new patch replaces the old one and is previewed, with the old preview still there. */
  function Generate(env: Env, s: Session, p: Payload): (Session, Result<seq<PreviewItem>, Failure>) {
    var shown := Previewed(env, s.(patch := Some(p)));
    if shown.Err? then (s.(patch := Some(p)), Err(shown.error)) else (shown.value, Ok(shown.value.preview))
  }

  // ----- Apply -----

  /** The environment of an apply: the hunks it selects and those rejected so far. */
  function EnvOf(env: Env, s: Session, sel: Selection): Env {
    env.(selected := sel.hunks, rejected := s.rejected)
  }

  function ScriptOf(env: Env, st: Store, op: RawOp): seq<Edit> {
    env.diff(OldText(env, st, op), Wanted(op, OldText(env, st, op)))
  }

  /** The operation has hunks. */
  predicate HasText(op: RawOp) {
    KindOf(op) in {Modify, Create, Rename}
  }

  predicate PendingHunk(env: Env, st: Store, op: RawOp, i: nat) {
    i < HunkCount(ScriptOf(env, st, op)) && HunkName(op, Owner(st, op), i) !in env.rejected
  }

  /** Some hunks are pending, and all of them are selected. */
  predicate FullySelected(env: Env, st: Store, op: RawOp) {
    HasText(op) ==>
      && (exists i :: 0 <= i < HunkCount(ScriptOf(env, st, op)) && PendingHunk(env, st, op, i))
      && (forall i :: 0 <= i < HunkCount(ScriptOf(env, st, op)) && PendingHunk(env, st, op, i) ==>
            HunkName(op, Owner(st, op), i) in env.selected)
  }

  function Whole(env: Env, st: Store): RawOp -> bool {
    (op: RawOp) => FullySelected(env, st, op)
  }

  /** Looking for the hunks of an operation reads its file. */
  predicate SelectionFails(env: Env, st: Store, ops: seq<RawOp>, sel: Selection) {
    exists op <- ops :: !NothingSelected(sel) && !Picked(op, sel.files, sel.ids) && HasSelectedHunk(op, sel.hunks) &&
      HasText(op) && (op.file.BadFile? || !Readable(env, st, op))
  }

  /** A conflicting item has the id or the file of one of the operations. */
  predicate ConflictTouches(items: seq<PreviewItem>, ops: seq<RawOp>) {
    exists item <- items, op <- ops :: item.conflict &&
      (op.operationId == item.operationId || (item.file.Some? && op.file == FileId(item.file.value)))
  }

  /** Applying the operations and keeping the rest pending; `env` knows the hunks. */
  function Finish(env: Env, s: Session, taken: seq<RawOp>, left: seq<RawOp>): (Session, Result<seq<RawOp>, Failure>) {
    var p := ApplyAll(env, s.work.store, taken);
    var failed := s.(work := s.work.(store := Discarded(s.work.store, p.store)));
    if !p.ok then (failed, Err(ApplyFailed))
    else
      var done := Session(Work(p.store, Push(s.work.snapshots, p.items)), Remainder(left), s.preview, s.rejected);
      if left == [] then (done.(preview := []), Ok(taken))
      else
        var shown := Previewed(env, done);
        if shown.Err? then (failed, Err(ApplyFailed)) else (shown.value, Ok(taken))
  }

  /** The session after an apply, and the operations applied. */
  function Apply(base: Env, s: Session, sel: Selection, allowConflicts: bool): (Session, Result<seq<RawOp>, Failure>) {
    var env := EnvOf(base, s, sel);
    if s.patch.None? then (s, Err(NoPatch))
    else
      var all := Normalize(s.patch.value);
      if all.Err? then (s, Err(BadPatch))
      else if SelectionFails(env, s.work.store, all.value, sel) then (s, Err(Unreadable))
      else
        var taken, left := Applied(all.value, sel), Left(all.value, sel, Whole(env, s.work.store));
        if !NothingSelected(sel) && taken == [] then (s, Err(NotAvailable))
        else if allowConflicts then Finish(env, s, taken, left)
        else
          var shown := Previewed(env, s);
          if shown.Err? then (s, Err(shown.error))
          else if ConflictTouches(shown.value.preview, taken) then (shown.value, Err(Conflict))
          else Finish(env, shown.value, taken, left)
  }

  // ----- Reject -----

  predicate ItemPicked(item: PreviewItem, files: set<nat>, ids: set<string>) {
    (item.file.Some? && item.file.value in files) || item.operationId in ids
  }

  function KeptItems(items: seq<PreviewItem>, files: set<nat>, ids: set<string>): seq<PreviewItem> {
    Filter(items, (item: PreviewItem) => !ItemPicked(item, files, ids))
  }

  /** What a reject reports: the preview it drops, or the operations it takes. */
  datatype Report = Dropped(items: seq<PreviewItem>) | Taken(ops: seq<RawOp>)

  function Reject(s: Session, files: set<nat>, ids: set<string>): Result<(Session, Report), Failure> {
    if s.patch.None? || (files == {} && ids == {}) then Ok((s.(patch := None, preview := []), Dropped(s.preview)))
    else
      var p := s.patch.value;
      if FilesShaped(p) then
        if exists i :: 0 <= i < |p.files| && p.files[i].None? then Err(BadPatch)
        else
          var left := RawPicked(p.files, files, ids, false);
          Ok((if left == [] then s.(patch := None, preview := [])
              else s.(patch := Some(p.(files := Wrapped(left))), preview := KeptItems(s.preview, files, ids)),
              Taken(RawPicked(p.files, files, ids, true))))
      else
        var ops := Normalize(p);
        if ops.Err? then Err(BadPatch)
        else
          var left := Filter(ops.value, (op: RawOp) => !Picked(op, files, ids));
          Ok((s.(patch := Remainder(left), preview := KeptItems(s.preview, files, ids)),
              Taken(Filter(ops.value, (op: RawOp) => Picked(op, files, ids)))))
  }

  // ----- The class -----

  class CodeSession {
    var records: map<nat, Record>
    var objects: map<nat, Lines>
    var fileIds: seq<nat>
    var folders: seq<string>
    var nextId: nat
    var snapshots: seq<Snapshot>
    var patch: Option<Payload>
    var preview: seq<PreviewItem>
    var rejected: set<string>

    constructor (st: Store)
      ensures View() == Session(Work(st, []), None, [], {})
    {
      records, objects, fileIds, folders, nextId := st.records, st.objects, st.fileIds, st.folders, st.nextId;
      snapshots, patch, preview, rejected := [], None, [], {};
    }

    function Files(): Store
      reads this
    {
      Store(records, objects, fileIds, folders, nextId)
    }

    function View(): Session
      reads this
    {
      Session(Work(Files(), snapshots), patch, preview, rejected)
    }

    method PutObject(id: nat, text: Lines)
      requires id in records
      modifies this`objects, this`records
      ensures Files() == Put(old(Files()), id, text)
    {
      objects := objects[id := text];
      records := records[id := records[id].(size := SizeOf(text), checksum := Sha256(text))];
    }

    /** One turn of the apply loop. */
    method ApplyOperation(env: Env, op: RawOp) returns (item: Item)
      requires Appliable(env, Files(), op)
      modifies this`records, this`objects, this`fileIds, this`folders, this`nextId
      ensures (Files(), item) == Effect(env, old(Files()), op)
    {
      hide SafeFilename, NewText, SizeOf, Unlisted, KindOf;
      if KindOf(op) == Folder {
        var folder := SafeFilename(op.filename).value;
        if folder !in folders {
          folders := folders + [folder];
        }
        return FolderItem(folder);
      }
      var name, before := TargetName(Files(), op).value, OldText(env, Files(), op);
      var text := NewText(env, Owner(Files(), op), before, op);
      match KindOf(op) {
        case Create =>
          item := CreatedItem(nextId);
          objects := objects[nextId := text];
          records := records[nextId := Record(name, Active, SizeOf(text), Sha256(text))];
          fileIds := fileIds + [nextId];
          nextId := nextId + 1;
        case Delete =>
          var id := Target(op).value;
          item := DeletedItem(id, before);
          records := records[id := records[id].(status := Deleted)];
          fileIds := Unlisted(fileIds, id);
        case Rename =>
          var id := Target(op).value;
          item := RenamedItem(id, before, records[id].filename);
          if text != before {
            PutObject(id, text);
          }
          records := records[id := records[id].(filename := name)];
        case Modify =>
          item := ModifiedItem(Target(op).value, before);
          PutObject(Target(op).value, text);
      }
    }

    /** The apply loop: all operations in order, or nothing but the objects written so far. */
    method ApplyOperations(env: Env, ops: seq<RawOp>) returns (ok: bool, items: seq<Item>)
      modifies this`records, this`objects, this`fileIds, this`folders, this`nextId
      ensures var p := ApplyAll(env, old(Files()), ops);
        && ok == p.ok && (ok ==> items == p.items)
        && Files() == if ok then p.store else Discarded(old(Files()), p.store)
    {
      hide Effect, Appliable;
      var records0, fileIds0, folders0 := records, fileIds, folders;
      items := [];
      assert ops[0..] == ops;
      for i := 0 to |ops|
        invariant var rest, all := ApplyAll(env, Files(), ops[i..]), ApplyAll(env, old(Files()), ops);
          all == Progress(rest.store, items + rest.items, rest.ok)
      {
        ApplyStep(env, Files(), ops, i);
        if !Appliable(env, Files(), ops[i]) {
          records, fileIds, folders := records0, fileIds0, folders0;
          ok := false;
          return;
        }
        ghost var rest := ApplyAll(env, Effect(env, Files(), ops[i]).0, ops[i + 1..]);
        var item := ApplyOperation(env, ops[i]);
        assert items + ([item] + rest.items) == items + [item] + rest.items;
        items := items + [item];
      }
      ApplyNothing(env, Files(), ops);
      assert items + [] == items;
      ok := true;
    }

    method PreviewPatchPayload(env: Env) returns (r: Result<seq<PreviewItem>, Failure>)
      modifies this`preview
      ensures var spec := Previewed(env, old(View()));
        View() == (if spec.Ok? then spec.value else old(View())) &&
        r == if spec.Err? then Err(spec.error) else Ok(if patch.None? then [] else preview)
    {
      hide PreviewAll;
      if patch.None? {
        return Ok([]);
      }
      var ops := NormalizePatchOperations(patch.value);
      if ops.Err? {
        return Err(BadPatch);
      }
      var items := PreviewOperations(env, Files(), ops.value, preview);
      if items.Err? {
        return Err(Unreadable);
      }
      preview := items.value;
      r := Ok(preview);
    }

    /** The patch the language model has written. */
    method GeneratePatch(env: Env, p: Payload) returns (r: Result<seq<PreviewItem>, Failure>)
      modifies this`patch, this`preview
      ensures (View(), r) == Generate(env, old(View()), p)
    {
      hide Normalize, PreviewAll;
      patch := Some(p);
      r := PreviewPatchPayload(env);
    }

    /** The part of an apply that changes files, and the preview of what stays pending. */
    method FinishApply(env: Env, taken: seq<RawOp>, left: seq<RawOp>) returns (r: Result<seq<RawOp>, Failure>)
      modifies this
      ensures (View(), r) == Finish(env, old(View()), taken, left)
    {
      hide ApplyAll, PreviewAll, Normalize, Remainder;
      var records0, fileIds0, folders0, patch0, snapshots0 := records, fileIds, folders, patch, snapshots;
      var ok, items := ApplyOperations(env, taken);
      if !ok {
        return Err(ApplyFailed);
      }
      snapshots := (if |snapshots| <= 10 then snapshots else snapshots[|snapshots| - 10..]) + [items];
      patch := Remainder(left);
      if left == [] {
        preview := [];
        return Ok(taken);
      }
      var shown := PreviewPatchPayload(env);
      if shown.Err? {
        records, fileIds, folders, patch, snapshots := records0, fileIds0, folders0, patch0, snapshots0;
        return Err(ApplyFailed);
      }
      r := Ok(taken);
    }

    /** Applies what is selected, unless something selected conflicts and conflicts are not allowed. */
    method ApplyPatchPayload(base: Env, sel: Selection, allowConflicts: bool) returns (r: Result<seq<RawOp>, Failure>)
      modifies this
      ensures (View(), r) == Apply(base, old(View()), sel, allowConflicts)
    {
      hide Normalize, SelectionFails, Applied, Left, Finish, ConflictTouches, PreviewAll;
      var env := EnvOf(base, View(), sel);
      if patch.None? {
        return Err(NoPatch);
      }
      var all := NormalizePatchOperations(patch.value);
      if all.Err? {
        return Err(BadPatch);
      }
      if SelectionFails(env, Files(), all.value, sel) {
        return Err(Unreadable);
      }
      var taken, left := Applied(all.value, sel), Left(all.value, sel, Whole(env, Files()));
      if !NothingSelected(sel) && taken == [] {
        return Err(NotAvailable);
      }
      if !allowConflicts {
        var shown := PreviewPatchPayload(env);
        if shown.Err? {
          return Err(shown.error);
        }
        if ConflictTouches(preview, taken) {
          return Err(Conflict);
        }
      }
      r := FinishApply(env, taken, left);
    }

    /** Removes what is selected from the pending patch and its preview; with nothing selected, all of it. */
    method RejectPatchPayload(files: set<nat>, operationIds: seq<string>) returns (r: Result<Report, Failure>)
      modifies this`patch, this`preview
      ensures var spec := Reject(old(View()), files, SelectedIds(operationIds));
        View() == (if spec.Ok? then spec.value.0 else old(View())) &&
        r == if spec.Ok? then Ok(spec.value.1) else Err(spec.error)
    {
      hide Normalize, RawPicked, Filter;
      var ids := SelectedIds(operationIds);
      if patch.None? || (files == {} && ids == {}) {
        r := Ok(Dropped(preview));
        patch, preview := None, [];
        return;
      }
      var p := patch.value;
      if FilesShaped(p) {
        if exists i :: 0 <= i < |p.files| && p.files[i].None? {
          return Err(BadPatch);
        }
        var taken, left := ShareFiles(p.files, files, ids);
        if left == [] {
          patch, preview := None, [];
        } else {
          patch, preview := Some(p.(files := Wrapped(left))), KeptItems(preview, files, ids);
        }
        return Ok(Taken(taken));
      }
      var ops := NormalizePatchOperations(p);
      if ops.Err? {
        return Err(BadPatch);
      }
      var taken := Filter(ops.value, (op: RawOp) => Picked(op, files, ids));
      var left := Filter(ops.value, (op: RawOp) => !Picked(op, files, ids));
      patch, preview := Remainder(left), KeptItems(preview, files, ids);
      r := Ok(Taken(taken));
    }

    /** One turn of the rollback loop. */
    method Restore(item: Item)
      modifies this`records, this`objects, this`fileIds, this`folders
      ensures Files() == RestoreItem(old(Files()), item)
    {
      hide SizeOf, Without;
      if item.FolderItem? {
        folders := Without(folders, item.folder);
        return;
      }
      if item.file !in records {
        return;
      }
      var id := item.file;
      match item {
        case CreatedItem(_) =>
          records := records[id := records[id].(status := Deleted)];
          fileIds := Without(fileIds, id);
          objects := objects - {id};
        case DeletedItem(_, content) =>
          records := records[id := records[id].(status := Active)];
          if id !in fileIds {
            fileIds := fileIds + [id];
          }
          PutObject(id, content);
        case RenamedItem(_, content, name) =>
          records := records[id := records[id].(filename := if name != "" then name else records[id].filename)];
          PutObject(id, content);
        case ModifiedItem(_, content) =>
          PutObject(id, content);
      }
    }

    /** Takes one snapshot off the stack and restores its items, first item first. */
    method RollbackSnapshot(index: Option<nat>) returns (ok: bool)
      modifies this`records, this`objects, this`fileIds, this`folders, this`snapshots
      ensures var spec := Rollback(old(View()).work, index);
        ok == spec.Ok? && View() == if ok then old(View()).(work := spec.value) else old(View())
    {
      hide RestoreItem;
      if snapshots == [] || (index.Some? && index.value >= |snapshots|) {
        return false;
      }
      var at := if index.Some? then index.value else |snapshots| - 1;
      var items := snapshots[at];
      assert items[0..] == items;
      for i := 0 to |items|
        invariant snapshots == old(snapshots)
        invariant RestoreAll(Files(), items[i..]) == RestoreAll(old(Files()), items)
      {
        assert items[i..][0] == items[i] && items[i..][1..] == items[i + 1..];
        Restore(items[i]);
      }
      snapshots := snapshots[..at] + snapshots[at + 1..];
      ok := true;
    }
  }

  lemma ApplyStep(env: Env, st: Store, ops: seq<RawOp>, i: nat)
    requires i < |ops|
    ensures ApplyAll(env, st, ops[i..]) ==
      if !Appliable(env, st, ops[i]) then Progress(st, [], false)
      else
        var (st1, item) := Effect(env, st, ops[i]);
        var rest := ApplyAll(env, st1, ops[i + 1..]);
        Progress(rest.store, [item] + rest.items, rest.ok)
  {
    assert ops[i..][0] == ops[i] && ops[i..][1..] == ops[i + 1..];
  }

  lemma ApplyNothing(env: Env, st: Store, ops: seq<RawOp>)
    ensures ApplyAll(env, st, ops[|ops|..]) == Progress(st, [], true)
  {
  }

  // ----- Selecting hunks -----

  /** Selecting all pending hunks of an operation writes what applying the whole operation would write; an operation only
      leaves the pending patch by its hunks when that is so. */
  lemma {:induction false} WholeSelectionIsFullApply(env: Env, s: Session, op: RawOp, sel: Selection)
    requires HasText(op) && FullySelected(EnvOf(env, s, sel), s.work.store, op)
    ensures var full := EnvOf(env, s, sel.(hunks := {}));
      var owner, before := Owner(s.work.store, op), OldText(full, s.work.store, op);
      NewText(EnvOf(env, s, sel), owner, before, op) == NewText(full, owner, before, op)
  {
    hide KindOf, HunkName, SpliceFrom, SortByStart;
    var part, full := EnvOf(env, s, sel), EnvOf(env, s, sel.(hunks := {}));
    var owner, before := Owner(s.work.store, op), OldText(full, s.work.store, op);
    assert OldText(part, s.work.store, op) == before;
    var count := HunkCount(ScriptOf(part, s.work.store, op));
    forall i | 0 <= i < count
      ensures HunkRejected(part, HunkName(op, owner, i)) <==> HunkRejected(full, HunkName(op, owner, i))
    {
      assert PendingHunk(part, s.work.store, op, i) <==> HunkName(op, owner, i) !in part.rejected;
    }
    assert RejectedHunks(part, owner, op, count) == RejectedHunks(full, owner, op, count);
  }

  /** An operation that is applied by its hunks and stays pending has a pending hunk that is not written, or none at all. */
  lemma {:induction false} PartialSelectionLeavesHunk(env: Env, s: Session, ops: seq<RawOp>, op: RawOp, sel: Selection)
    requires var own := EnvOf(env, s, sel);
      op in Applied(ops, sel) && op in Left(ops, sel, Whole(own, s.work.store))
    ensures var own, st := EnvOf(env, s, sel), s.work.store;
      && HasText(op) && HasSelectedHunk(op, sel.hunks)
      && ((exists i :: 0 <= i < HunkCount(ScriptOf(own, st, op)) && PendingHunk(own, st, op, i)) ==>
            exists i :: 0 <= i < HunkCount(ScriptOf(own, st, op)) && PendingHunk(own, st, op, i) &&
              i in RejectedHunks(own, Owner(st, op), op, HunkCount(ScriptOf(own, st, op))))
  {
    hide KindOf, HunkName, ScriptOf, HasSelectedHunk;
    var own, st := EnvOf(env, s, sel), s.work.store;
    FilterMember(ops, (o: RawOp) => IsApplied(o, sel), op);
    FilterMember(ops, (o: RawOp) => IsLeft(o, sel, Whole(own, st)), op);
    SomeHunk(op, sel.hunks);
    if exists i :: 0 <= i < HunkCount(ScriptOf(own, st, op)) && PendingHunk(own, st, op, i) {
      var i :| 0 <= i < HunkCount(ScriptOf(own, st, op)) && PendingHunk(own, st, op, i) &&
        HunkName(op, Owner(st, op), i) !in own.selected;
      assert HunkRejected(own, HunkName(op, Owner(st, op), i));
      assert i in RejectedHunks(own, Owner(st, op), op, HunkCount(ScriptOf(own, st, op)));
    }
  }

  lemma SomeHunk(op: RawOp, hunks: set<string>)
    ensures HasSelectedHunk(op, hunks) ==> hunks != {}
  {
  }
}
