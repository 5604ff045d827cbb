// What an apply leaves behind for each of its operations, told by the operation, the files as they were when its turn came
// and the files at the end (backend/services/agent/code_workspace.py, the loop of apply_patch_payload).
module WorkspaceEffects {
  import opened EditScripts
  import opened HunkReview
  import opened Hunks
  import opened PatchPayload
  import opened Workspace
  import opened WorkspaceFailures
  import opened WorkspaceFiles
  import opened Wrappers

  // ----- What each kind of operation promises -----

  /** The known file an operation names. */
  predicate Names(st: Store, op: RawOp, id: nat) {
    op.file == FileId(id) && id in st.records
  }

  /** What is read from the file before the operation; only an active file is read. */
  function ReadBefore(env: Env, st: Store, op: RawOp): Lines {
    if op.file.FileId? && op.file.id in st.records && st.records[op.file.id].status == Active && op.file.id in st.objects
       && env.read(st.records[op.file.id].filename, st.objects[op.file.id]).Some?
    then env.read(st.records[op.file.id].filename, st.objects[op.file.id]).value
    else []
  }

  /** The name asked for: the new one, else the one the file has, else the one the operation gives. */
  predicate NamedBy(st: Store, op: RawOp, name: string) {
    if op.newFilename != "" then SafeFilename(op.newFilename) == Ok(name)
    else if op.file.FileId? && op.file.id in st.records then SafeFilename(st.records[op.file.id].filename) == Ok(name)
    else SafeFilename(op.filename).Ok? && SafeFilename(SafeFilename(op.filename).value) == Ok(name)
  }

  /** The hunk is rejected, or others are selected. */
  predicate LeftOut(env: Env, st: Store, op: RawOp, n: nat) {
    var name := HunkName(op, if op.file.FileId? && op.file.id in st.records then Some(op.file.id) else None, n);
    name in env.rejected || (env.selected != {} && name !in env.selected)
  }

  function HunksLeftOut(env: Env, st: Store, op: RawOp, was: Lines, wanted: Lines): set<nat> {
    set n | 0 <= n < HunkCount(env.diff(was, wanted)) && LeftOut(env, st, op, n)
  }

  /** The text asked for when no hunk is left out, and otherwise the old text with the accepted hunks merged in. */
  ghost predicate TextAsked(env: Env, st: Store, op: RawOp, wanted: Lines, text: Lines) {
    var before := ReadBefore(env, st, op);
    var out := HunksLeftOut(env, st, op, before, wanted);
    && (out == {} ==> text == wanted)
    && (out != {} && OldOf(env.diff(before, wanted)) == before ==> text == Merged(env.diff(before, wanted), out, 0))
  }

  /** An active file of the session whose object holds the text and whose record describes it. */
  predicate FileThere(st: Store, id: nat, text: Lines) {
    && id in st.records && id in st.objects && st.objects[id] == text
    && st.records[id].size == SizeOf(text) && st.records[id].checksum == Sha256(text)
  }

  ghost predicate Created(env: Env, before: Store, end: Store, op: RawOp, item: Item) {
    && item.CreatedItem? && before.nextId <= item.file < end.nextId
    && item.file !in before.records && item.file in end.fileIds && item.file in end.objects
    && FileThere(end, item.file, end.objects[item.file])
    && end.records[item.file].status == Active
    && NamedBy(before, op, end.records[item.file].filename)
    && TextAsked(env, before, op, op.content, end.objects[item.file])
  }

  /** Only status and place in the session change. */
  predicate DeletedOne(before: Store, end: Store, op: RawOp, item: Item) {
    && item.DeletedItem? && Names(before, op, item.file) && item.file in end.records
    && end.records[item.file] == before.records[item.file].(status := Deleted)
    && item.file !in end.fileIds
    && Stored(end, item.file) == Stored(before, item.file)
  }

  /** A file that keeps its place in the session, and its status. */
  predicate InPlace(before: Store, end: Store, id: nat) {
    && id in before.records && id in end.records
    && end.records[id].status == before.records[id].status
    && (id in end.fileIds <==> id in before.fileIds)
  }

  /** The object changes only when the text asked for is not the one that was read. */
  ghost predicate RenamedText(env: Env, before: Store, end: Store, op: RawOp, id: nat, text: Lines)
    requires id in before.records && id in end.records
  {
    && TextAsked(env, before, op, if op.content != [] then op.content else ReadBefore(env, before, op), text)
    && (if text != ReadBefore(env, before, op) then FileThere(end, id, text)
        else
          && Stored(end, id) == Stored(before, id)
          && end.records[id] == before.records[id].(filename := end.records[id].filename))
  }

  ghost predicate Renamed(env: Env, before: Store, end: Store, op: RawOp, item: Item) {
    && item.RenamedItem? && Names(before, op, item.file) && InPlace(before, end, item.file)
    && NamedBy(before, op, end.records[item.file].filename)
    && exists text :: RenamedText(env, before, end, op, item.file, text)
  }

  ghost predicate Modified(env: Env, before: Store, end: Store, op: RawOp, item: Item) {
    && item.ModifiedItem? && Names(before, op, item.file) && InPlace(before, end, item.file)
    && end.records[item.file].filename == before.records[item.file].filename
    && item.file in end.objects && FileThere(end, item.file, end.objects[item.file])
    && TextAsked(env, before, op, op.content, end.objects[item.file])
  }

  predicate FolderMade(end: Store, op: RawOp, item: Item) {
    item.FolderItem? && SafeFilename(op.filename) == Ok(item.folder) && item.folder in end.folders
  }

  /** What the operation has led to. */
  ghost predicate Landed(env: Env, before: Store, end: Store, op: RawOp, item: Item) {
    if op.typ == "folder" then FolderMade(end, op, item)
    else if op.typ == "create" then Created(env, before, end, op, item)
    else if op.typ == "delete" then DeletedOne(before, end, op, item)
    else if op.typ == "rename" then Renamed(env, before, end, op, item)
    else Modified(env, before, end, op, item)
  }

  // ----- One turn -----

  lemma TextIsAsked(env: Env, st: Store, op: RawOp)
    requires op.typ != "delete"
    ensures TextAsked(env, st, op,
      if op.content != [] || op.typ != "rename" then op.content else ReadBefore(env, st, op),
      NewText(env, Owner(st, op), OldText(env, st, op), op))
  {
    hide Merged, HunkName, HunkCount, SpliceFrom, SortByStart, WithStatus, ParsedHunks, UnifiedDiff;
    var before := OldText(env, st, op);
    var wanted := Wanted(op, before);
    if OldOf(env.diff(before, wanted)) == before {
      NewTextIsMerged(env, Owner(st, op), before, op);
    }
    assert before == ReadBefore(env, st, op);
    assert HunksLeftOut(env, st, op, before, wanted) == RejectedHunks(env, Owner(st, op), op, HunkCount(env.diff(before, wanted)));
  }

  lemma NameIsAsked(env: Env, st: Store, op: RawOp)
    requires Appliable(env, st, op) && op.typ != "folder"
    ensures NamedBy(st, op, TargetName(st, op).value)
  {
    hide SafeFilename;
  }

  lemma SameReading(env: Env, st: Store, op: RawOp)
    ensures OldText(env, st, op) == ReadBefore(env, st, op)
  {
  }

  lemma CreateLands(env: Env, st: Store, op: RawOp)
    requires Orderly(st) && Appliable(env, st, op) && op.typ == "create"
    ensures Created(env, st, Effect(env, st, op).0, op, Effect(env, st, op).1)
  {
    hide SafeFilename, NewText, SizeOf, OldText, TargetName, NamedBy, TextAsked;
    NameIsAsked(env, st, op);
    TextIsAsked(env, st, op);
  }

  lemma DeleteLands(env: Env, st: Store, op: RawOp)
    requires Orderly(st) && Appliable(env, st, op) && op.typ == "delete"
    ensures DeletedOne(st, Effect(env, st, op).0, op, Effect(env, st, op).1)
  {
    hide SafeFilename, NewText, SizeOf, OldText, TargetName;
    UnlistedMember(st.fileIds, Target(op).value, Target(op).value);
  }

  lemma RenameLands(env: Env, st: Store, op: RawOp)
    requires Orderly(st) && Appliable(env, st, op) && op.typ == "rename"
    ensures Renamed(env, st, Effect(env, st, op).0, op, Effect(env, st, op).1)
  {
    hide SafeFilename, NewText, SizeOf, OldText, TargetName, NamedBy, TextAsked, ReadBefore;
    NameIsAsked(env, st, op);
    TextIsAsked(env, st, op);
    SameReading(env, st, op);
    var end := Effect(env, st, op).0;
    var text := NewText(env, Owner(st, op), OldText(env, st, op), op);
    assert RenamedText(env, st, end, op, Target(op).value, text);
  }

  lemma ModifyLands(env: Env, st: Store, op: RawOp)
    requires Orderly(st) && Appliable(env, st, op) && op.typ !in {"folder", "create", "delete", "rename"}
    ensures Modified(env, st, Effect(env, st, op).0, op, Effect(env, st, op).1)
  {
    hide SafeFilename, NewText, SizeOf, OldText, TargetName, NamedBy, TextAsked;
    TextIsAsked(env, st, op);
  }

  /** One operation, where it is applied. */
  lemma TurnLands(env: Env, st: Store, op: RawOp)
    requires Orderly(st) && Appliable(env, st, op)
    ensures Landed(env, st, Effect(env, st, op).0, op, Effect(env, st, op).1)
  {
    hide SafeFilename, NewText, OldText, TargetName, Created, DeletedOne, Renamed, Modified, Orderly;
    if op.typ == "create" {
      CreateLands(env, st, op);
    } else if op.typ == "delete" {
      DeleteLands(env, st, op);
    } else if op.typ == "rename" {
      RenameLands(env, st, op);
    } else if op.typ != "folder" {
      ModifyLands(env, st, op);
    }
  }

  // ----- A whole patch -----

  /** The file behind an item has not changed since, and nothing has been taken away. */
  predicate StillThere(now: Store, later: Store, item: Item) {
    && now.nextId <= later.nextId
    && (forall folder <- now.folders :: folder in later.folders)
    && (!item.FolderItem? ==> ViewOf(now, item.file) == ViewOf(later, item.file))
  }

  lemma SameText(env: Env, before: Store, now: Store, later: Store, op: RawOp, id: nat, text: Lines)
    requires id in before.records && id in now.records && ViewOf(now, id) == ViewOf(later, id)
    requires RenamedText(env, before, now, op, id, text)
    ensures id in later.records && RenamedText(env, before, later, op, id, text)
  {
    hide TextAsked, SizeOf, ReadBefore;
    SameView(now, later, id);
    assert Stored(now, id) == ViewOf(now, id).text;
    assert ViewOf(now, id).record == ViewOf(later, id).record;
  }

  lemma LandedLater(env: Env, before: Store, now: Store, later: Store, op: RawOp, item: Item)
    requires Landed(env, before, now, op, item) && StillThere(now, later, item)
    ensures Landed(env, before, later, op, item)
  {
    hide TextAsked, NamedBy, SizeOf, ReadBefore, SafeFilename, RenamedText;
    if op.typ != "folder" {
      var id := item.file;
      assert ViewOf(now, id).record == ViewOf(later, id).record;
      assert ViewOf(now, id).text == ViewOf(later, id).text;
      assert ViewOf(now, id).listed == ViewOf(later, id).listed;
      if op.typ == "rename" {
        var text :| RenamedText(env, before, now, op, id, text);
        SameText(env, before, now, later, op, id, text);
      }
    }
  }

  lemma EffectKeepsFolders(env: Env, st: Store, op: RawOp)
    requires Appliable(env, st, op)
    ensures forall folder <- st.folders :: folder in Effect(env, st, op).0.folders
  {
    hide SafeFilename, NewText, OldText, TargetName, Put, KindOf;
    PutKeepsFolders(st, Target(op), NewText(env, Owner(st, op), OldText(env, st, op), op));
  }

  lemma PutKeepsFolders(st: Store, id: Option<nat>, text: Lines)
    ensures id.Some? && id.value in st.records ==> Put(st, id.value, text).folders == st.folders
  {
  }

  lemma {:induction false} ApplyAllKeepsFolders(env: Env, st: Store, ops: seq<RawOp>)
    ensures forall folder <- st.folders :: folder in ApplyAll(env, st, ops).store.folders
    decreases |ops|
  {
    hide Effect, Appliable;
    if ops != [] && Appliable(env, st, ops[0]) {
      EffectKeepsFolders(env, st, ops[0]);
      ApplyAllKeepsFolders(env, Effect(env, st, ops[0]).0, ops[1..]);
    }
  }

  /** The files as they were when the turn of ops[i] came. */
  function AtTurn(env: Env, st: Store, ops: seq<RawOp>, i: nat): Store
    requires i <= |ops|
  {
    ApplyAll(env, st, ops[..i]).store
  }

  /** No operation behind ops[i] works on the file of its item. */
  predicate LeftAlone(ops: seq<RawOp>, i: nat, item: Item) {
    forall j :: i < j < |ops| && Targeted(ops[j]) ==> item.FolderItem? || Target(ops[j]) != Some(item.file)
  }

  lemma ItemIsKnown(env: Env, before: Store, now: Store, op: RawOp, item: Item)
    requires Orderly(now) && Landed(env, before, now, op, item) && !item.FolderItem?
    ensures item.file < now.nextId
  {
    hide TextAsked, NamedBy, SizeOf, ReadBefore, SafeFilename, RenamedText;
  }

  lemma FirstLands(env: Env, st: Store, ops: seq<RawOp>)
    requires Orderly(st) && ops != [] && Appliable(env, st, ops[0])
    requires LeftAlone(ops, 0, Effect(env, st, ops[0]).1)
    ensures Landed(env, st, ApplyAll(env, st, ops).store, ops[0], Effect(env, st, ops[0]).1)
  {
    hide Landed, Effect, Appliable, Orderly, Targeted, ViewOf;
    var (st1, item) := Effect(env, st, ops[0]);
    TurnLands(env, st, ops[0]);
    EffectKeepsOrder(env, st, ops[0]);
    ApplyAllKeepsOrder(env, st1, ops[1..]);
    ApplyAllKeepsFolders(env, st1, ops[1..]);
    if !item.FolderItem? {
      ItemIsKnown(env, st, st1, ops[0], item);
      forall j | 0 <= j < |ops[1..]| && Targeted(ops[1..][j]) ensures Target(ops[1..][j]) != Some(item.file) {
        assert ops[1..][j] == ops[j + 1];
      }
      ApplyAllElsewhere(env, st1, ops[1..], item.file);
    }
    LandedLater(env, st, st1, ApplyAll(env, st1, ops[1..]).store, ops[0], item);
  }

  /** Every operation an apply has got to leaves what it promises, unless a later one works on the same file. */
  lemma {:induction false} OperationLands(env: Env, st: Store, ops: seq<RawOp>, i: nat)
    requires Orderly(st) && i < |ApplyAll(env, st, ops).items|
    requires LeftAlone(ops, i, ApplyAll(env, st, ops).items[i])
    ensures i < |ops|
    ensures Landed(env, AtTurn(env, st, ops, i), ApplyAll(env, st, ops).store, ops[i], ApplyAll(env, st, ops).items[i])
    decreases |ops|
  {
    hide Landed, Effect, Appliable, Orderly, Targeted, ViewOf, Target;
    var st1 := Effect(env, st, ops[0]).0;
    EffectKeepsOrder(env, st, ops[0]);
    if i == 0 {
      assert ops[..0] == [];
      FirstLands(env, st, ops);
    } else {
      forall j | i - 1 < j < |ops[1..]| && Targeted(ops[1..][j])
        ensures ApplyAll(env, st, ops).items[i].FolderItem? || Target(ops[1..][j]) != Some(ApplyAll(env, st, ops).items[i].file)
      {
        assert ops[1..][j] == ops[j + 1];
      }
      OperationLands(env, st1, ops[1..], i - 1);
      assert ops[..i][0] == ops[0] && ops[..i][1..] == ops[1..][..i - 1];
    }
  }

  // ----- Patches whose operations name different files -----

  /** The named file is the same before both. */
  predicate SameTarget(a: Store, b: Store, op: RawOp) {
    op.file.FileId? ==> ViewOf(a, op.file.id) == ViewOf(b, op.file.id)
  }

  lemma SameAsked(env: Env, a: Store, b: Store, op: RawOp, wanted: Lines, text: Lines, name: string)
    requires SameTarget(a, b, op)
    ensures TextAsked(env, a, op, wanted, text) == TextAsked(env, b, op, wanted, text)
    ensures NamedBy(a, op, name) == NamedBy(b, op, name)
    ensures ReadBefore(env, a, op) == ReadBefore(env, b, op)
  {
    hide SafeFilename, Merged, HunkName, HunkCount;
    if op.file.FileId? {
      var va, vb := ViewOf(a, op.file.id), ViewOf(b, op.file.id);
      assert va.record == vb.record && va.text == vb.text;
      SameView(a, b, op.file.id);
    }
    var before := ReadBefore(env, a, op);
    assert before == ReadBefore(env, b, op);
    assert HunksLeftOut(env, a, op, before, wanted) == HunksLeftOut(env, b, op, before, wanted);
  }

  lemma LandedEarlier(env: Env, start: Store, before: Store, end: Store, op: RawOp, item: Item)
    requires Orderly(start) && start.nextId <= before.nextId && SameTarget(start, before, op)
    requires Landed(env, before, end, op, item)
    ensures Landed(env, start, end, op, item)
  {
    hide TextAsked, NamedBy, SizeOf, ReadBefore, SafeFilename;
    if op.typ != "folder" {
      var id := item.file;
      SameAsked(env, start, before, op, op.content, if id in end.objects then end.objects[id] else [],
                if id in end.records then end.records[id].filename else "");
      if op.typ != "create" {
        assert ViewOf(start, id).record == ViewOf(before, id).record;
        assert ViewOf(start, id).text == ViewOf(before, id).text && ViewOf(start, id).listed == ViewOf(before, id).listed;
      }
      if op.typ == "rename" {
        var text :| RenamedText(env, before, end, op, id, text);
        SameAsked(env, start, before, op, if op.content != [] then op.content else ReadBefore(env, before, op), text, "");
        assert RenamedText(env, start, end, op, id, text);
      }
    }
  }

  lemma TargetStaysUntil(env: Env, st: Store, ops: seq<RawOp>, i: nat)
    requires Orderly(st) && SeparateTargets(st, ops) && i < |ops|
    ensures SameTarget(st, AtTurn(env, st, ops, i), ops[i]) && st.nextId <= AtTurn(env, st, ops, i).nextId
  {
    hide Orderly, ViewOf, Targeted;
    ApplyAllKeepsOrder(env, st, ops[..i]);
    if ops[i].file.FileId? {
      assert Target(ops[i]) == Some(ops[i].file.id);
      ApplyAllElsewhere(env, st, ops[..i], ops[i].file.id);
    }
  }

  /**
   * When the operations name different files, every one that an apply has got to leaves in the end what it promises on the
   * files as they were before the patch: a created file is there, listed, under its safe name and with its content, a
   * deleted one is inactive and not listed, a renamed one has its new name, a modified one its new content.
   */
  lemma {:induction false} PatchLands(env: Env, st: Store, ops: seq<RawOp>, i: nat)
    requires Orderly(st) && SeparateTargets(st, ops) && i < |ApplyAll(env, st, ops).items|
    ensures i < |ops| && Landed(env, st, ApplyAll(env, st, ops).store, ops[i], ApplyAll(env, st, ops).items[i])
  {
    hide Landed, Orderly, SameTarget;
    var item := ApplyAll(env, st, ops).items[i];
    ItemsTouch(env, st, ops, i);
    assert LeftAlone(ops, i, item) by {
      forall j | i < j < |ops| && Targeted(ops[j]) ensures item.FolderItem? || Target(ops[j]) != Some(item.file) {
        assert Target(ops[j]).Some? ==> Target(ops[i]) != Target(ops[j]) && Target(ops[j]).value < st.nextId;
      }
    }
    OperationLands(env, st, ops, i);
    TargetStaysUntil(env, st, ops, i);
    LandedEarlier(env, st, AtTurn(env, st, ops, i), ApplyAll(env, st, ops).store, ops[i], item);
  }

  /** Two created files are two files. */
  lemma {:induction false} CreatedApart(env: Env, st: Store, ops: seq<RawOp>, i: nat, j: nat)
    requires Orderly(st) && i < j < |ApplyAll(env, st, ops).items|
    requires ApplyAll(env, st, ops).items[i].CreatedItem? && ApplyAll(env, st, ops).items[j].CreatedItem?
    ensures ApplyAll(env, st, ops).items[i].file < ApplyAll(env, st, ops).items[j].file
    decreases |ops|
  {
    hide Appliable, Orderly, NewText, KindOf, SafeFilename, OldText, TargetName;
    var st1 := Effect(env, st, ops[0]).0;
    EffectKeepsOrder(env, st, ops[0]);
    if i == 0 {
      ItemsTouch(env, st1, ops[1..], j - 1);
      CreatedIsNew(env, st1, ops[1..], j - 1);
    } else {
      CreatedApart(env, st1, ops[1..], i - 1, j - 1);
    }
  }

  lemma {:induction false} CreatedIsNew(env: Env, st: Store, ops: seq<RawOp>, k: nat)
    requires Orderly(st) && k < |ApplyAll(env, st, ops).items| && ApplyAll(env, st, ops).items[k].CreatedItem?
    ensures ApplyAll(env, st, ops).items[k].file >= st.nextId
    decreases |ops|
  {
    hide Appliable, Orderly, NewText, KindOf, SafeFilename, OldText, TargetName;
    EffectKeepsOrder(env, st, ops[0]);
    if k > 0 {
      CreatedIsNew(env, Effect(env, st, ops[0]).0, ops[1..], k - 1);
    }
  }

  // ----- Folders -----

  predicate Once(folders: seq<string>) {
    forall i, j :: 0 <= i < j < |folders| ==> folders[i] != folders[j]
  }

  /** The first `n` operations make this folder. */
  predicate Makes(ops: seq<RawOp>, n: nat, folder: string)
    requires n <= |ops|
  {
    exists i :: 0 <= i < n && ops[i].typ == "folder" && SafeFilename(ops[i].filename) == Ok(folder)
  }

  lemma FoldersOfTurn(env: Env, st: Store, op: RawOp)
    requires Appliable(env, st, op)
    ensures var folders := Effect(env, st, op).0.folders;
      folders == if op.typ == "folder" && SafeFilename(op.filename).value !in st.folders
                 then st.folders + [SafeFilename(op.filename).value] else st.folders
  {
    hide SafeFilename, NewText, OldText, TargetName, SizeOf;
  }

  lemma MakesFirst(ops: seq<RawOp>, n: nat, folder: string)
    requires 0 < n <= |ops|
    ensures Makes(ops, n, folder) <==>
      (ops[0].typ == "folder" && SafeFilename(ops[0].filename) == Ok(folder)) || Makes(ops[1..], n - 1, folder)
  {
    hide SafeFilename;
    if i :| 0 < i < n && ops[i].typ == "folder" && SafeFilename(ops[i].filename) == Ok(folder) {
      assert ops[1..][i - 1] == ops[i];
    }
    if i :| 0 <= i < n - 1 && ops[1..][i].typ == "folder" && SafeFilename(ops[1..][i].filename) == Ok(folder) {
      assert ops[i + 1] == ops[1..][i];
    }
  }

  /** An apply keeps the folders there are, in their order, and adds those its operations make, each once. */
  lemma {:induction false} FoldersAfter(env: Env, st: Store, ops: seq<RawOp>, folder: string)
    requires Once(st.folders)
    ensures var p := ApplyAll(env, st, ops);
      && |p.items| <= |ops| && Once(p.store.folders) && st.folders <= p.store.folders
      && (folder in p.store.folders <==> folder in st.folders || Makes(ops, |p.items|, folder))
    decreases |ops|
  {
    hide Effect, Appliable, SafeFilename, Makes;
    if ops == [] || !Appliable(env, st, ops[0]) {
      MakesNone(ops, folder);
    } else {
      FoldersOfTurn(env, st, ops[0]);
      FolderNameOk(env, st, ops[0]);
      FoldersAfter(env, Effect(env, st, ops[0]).0, ops[1..], folder);
      MakesFirst(ops, |ApplyAll(env, st, ops).items|, folder);
    }
  }

  lemma MakesNone(ops: seq<RawOp>, folder: string)
    ensures !Makes(ops, 0, folder)
  {
  }

  lemma FolderNameOk(env: Env, st: Store, op: RawOp)
    requires Appliable(env, st, op)
    ensures op.typ == "folder" ==> SafeFilename(op.filename).Ok?
  {
    hide SafeFilename;
  }
}
