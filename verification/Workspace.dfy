// The files a patch is applied to and rolled back on (backend/services/agent/code_workspace.py, the loops of
// apply_patch_payload and rollback_snapshot). Text is a sequence of lines; every record has its own object, so objects
// are kept by file id; ids of new files are drawn from a counter. A file's text is what get_file_text makes of its
// stored object, which depends on the file's name and may be another text.
module Workspace {
  import opened Decimal
  import opened EditScripts
  import opened Hunks
  import opened HunkReview
  import opened PatchPayload
  import opened Wrappers

  /** An injective stand-in for the SHA-256 of a text. */
  datatype Checksum = Sha256(text: Lines)

  datatype FileStatus = Active | Deleted

  datatype Record = Record(filename: string, status: FileStatus, size: nat, checksum: Checksum)

  datatype Store = Store(
    records: map<nat, Record>,
    objects: map<nat, Lines>,
    fileIds: seq<nat>,
    folders: seq<string>,
    nextId: nat)

  /** What a snapshot remembers about one operation. */
  datatype Item =
    | FolderItem(folder: string)
    | CreatedItem(file: nat)
    | DeletedItem(file: nat, content: Lines)
    | RenamedItem(file: nat, content: Lines, originalName: string)
    | ModifiedItem(file: nat, content: Lines)

  /** The matcher behind the diffs. */
  type Differ = (Lines, Lines) -> seq<Edit>

  /** The text read from an object stored under a name, None when reading it fails. */
  type Reader = (string, Lines) -> Option<Lines>

  /** `selected`: the hunks selected for applying, if any; `rejected`: the hunks the user has rejected. */
  datatype Env = Env(diff: Differ, read: Reader, selected: set<string>, rejected: set<string>)

  // ----- Records -----

  function SizeOf(text: Lines): nat {
    if text == [] then 0 else |text[0]| + 1 + SizeOf(text[1..])
  }

  /** get_file_text: None when the object is missing or cannot be read. */
  function Read(env: Env, st: Store, id: nat): Option<Lines> {
    if id in st.records && id in st.objects then env.read(st.records[id].filename, st.objects[id]) else None
  }

  function Put(st: Store, id: nat, text: Lines): Store
    requires id in st.records
  {
    st.(objects := st.objects[id := text],
        records := st.records[id := st.records[id].(size := SizeOf(text), checksum := Sha256(text))])
  }

  /** list.remove: the first occurrence goes. */
  function Unlisted(ids: seq<nat>, id: nat): seq<nat> {
    if ids == [] then [] else if ids[0] == id then ids[1..] else [ids[0]] + Unlisted(ids[1..], id)
  }

  function Without<T(==)>(s: seq<T>, x: T): seq<T> {
    if s == [] then [] else (if s[0] == x then [] else [s[0]]) + Without(s[1..], x)
  }

  // ----- One operation -----

  function KindOf(op: RawOp): Kind {
    if op.typ == "create" then Create
    else if op.typ == "delete" then Delete
    else if op.typ == "rename" then Rename
    else if op.typ == "folder" then Folder
    else Modify
  }

  function Target(op: RawOp): Option<nat> {
    if op.file.FileId? then Some(op.file.id) else None
  }

  predicate Found(st: Store, op: RawOp) {
    Target(op).Some? && Target(op).value in st.records
  }

  /** The file an operation works on, None for a new one. */
  function Owner(st: Store, op: RawOp): Option<nat> {
    if Found(st, op) then Target(op) else None
  }

  predicate ActiveTarget(st: Store, op: RawOp) {
    Found(st, op) && st.records[Target(op).value].status == Active
  }

  function OldName(st: Store, op: RawOp): Result<string, string> {
    if Found(st, op) then Ok(st.records[Target(op).value].filename) else SafeFilename(op.filename)
  }

  function TargetName(st: Store, op: RawOp): Result<string, string> {
    var name := OldName(st, op);
    if name.Err? then name else SafeFilename(if op.newFilename != "" then op.newFilename else name.value)
  }

  predicate Readable(env: Env, st: Store, op: RawOp) {
    ActiveTarget(st, op) ==> Read(env, st, Target(op).value).Some?
  }

  /** Only an active file is read. */
  function OldText(env: Env, st: Store, op: RawOp): Lines {
    if ActiveTarget(st, op) && Readable(env, st, op) then Read(env, st, Target(op).value).value else []
  }

  function Wanted(op: RawOp, before: Lines): Lines {
    if KindOf(op) == Delete then [] else if op.content != [] then op.content else if KindOf(op) == Rename then before else []
  }

  function HunkName(op: RawOp, owner: Option<nat>, index: nat): string {
    op.operationId + "-" + (if owner.Some? then Format(owner.value) else "new") + "-" + Format(index)
  }

  predicate HunkRejected(env: Env, name: string) {
    (env.selected != {} && name !in env.selected) || name in env.rejected
  }

  function RejectedHunks(env: Env, owner: Option<nat>, op: RawOp, count: nat): set<nat> {
    set i | 0 <= i < count && HunkRejected(env, HunkName(op, owner, i))
  }

  /** The wanted text, or the accepted hunks spliced into the old one when some hunk is rejected. */
  function NewText(env: Env, owner: Option<nat>, before: Lines, op: RawOp): Lines {
    var wanted := Wanted(op, before);
    var script := env.diff(before, wanted);
    var rejected := RejectedHunks(env, owner, op, HunkCount(script));
    if KindOf(op) != Delete && rejected != {} then
      SpliceFrom(before, 0, SortByStart(WithStatus(ParsedHunks(UnifiedDiff(script)), rejected)))
    else wanted
  }

  /** Whatever matcher made the diff, the text written is the wanted one when no hunk is rejected, the old one when all
      are, and in between the old one with exactly the accepted hunks. */
  lemma {:induction false} NewTextIsMerged(env: Env, owner: Option<nat>, before: Lines, op: RawOp)
    requires KindOf(op) != Delete && OldOf(env.diff(before, Wanted(op, before))) == before
    ensures var script := env.diff(before, Wanted(op, before));
      var rejected := RejectedHunks(env, owner, op, HunkCount(script));
      && (rejected == {} ==> NewText(env, owner, before, op) == Wanted(op, before))
      && (rejected != {} ==> NewText(env, owner, before, op) == Merged(script, rejected, 0))
      && ((forall i :: 0 <= i < HunkCount(script) ==> HunkRejected(env, HunkName(op, owner, i))) && HunkCount(script) > 0 ==>
            NewText(env, owner, before, op) == before)
  {
    hide SpliceFrom, SortByStart, WithStatus, ParsedHunks, UnifiedDiff, Merged, HunkName, HunkRejected, KindOf;
    var script := env.diff(before, Wanted(op, before));
    var rejected := RejectedHunks(env, owner, op, HunkCount(script));
    ReviewedText(script, rejected, WithStatus(ParsedHunks(UnifiedDiff(script)), rejected));
    if (forall i :: 0 <= i < HunkCount(script) ==> HunkRejected(env, HunkName(op, owner, i))) && HunkCount(script) > 0 {
      assert 0 in rejected;
      RejectAll(script, rejected, 0);
    }
  }

  predicate Targeted(op: RawOp) {
    KindOf(op) in {Modify, Delete, Rename}
  }

  /** The target exists, the names are acceptable and the old text can be read. */
  predicate Appliable(env: Env, st: Store, op: RawOp) {
    if KindOf(op) == Folder then SafeFilename(op.filename).Ok?
    else
      !op.file.BadFile? && (Targeted(op) ==> Found(st, op)) && TargetName(st, op).Ok? && Readable(env, st, op)
  }

  function MakeFolder(st: Store, folder: string): Store {
    if folder in st.folders then st else st.(folders := st.folders + [folder])
  }

  function CreateFile(st: Store, name: string, text: Lines): Store {
    st.(records := st.records[st.nextId := Record(name, Active, SizeOf(text), Sha256(text))],
        objects := st.objects[st.nextId := text],
        fileIds := st.fileIds + [st.nextId],
        nextId := st.nextId + 1)
  }

  function DeleteFile(st: Store, id: nat): Store
    requires id in st.records
  {
    st.(records := st.records[id := st.records[id].(status := Deleted)], fileIds := Unlisted(st.fileIds, id))
  }

  function RenameFile(st: Store, id: nat, name: string, before: Lines, text: Lines): Store
    requires id in st.records
  {
    var written := if text != before then Put(st, id, text) else st;
    written.(records := written.records[id := written.records[id].(filename := name)])
  }

  function Effect(env: Env, st: Store, op: RawOp): (Store, Item)
    requires Appliable(env, st, op)
  {
    if KindOf(op) == Folder then
      (MakeFolder(st, SafeFilename(op.filename).value), FolderItem(SafeFilename(op.filename).value))
    else
      var name, before := TargetName(st, op).value, OldText(env, st, op);
      var text := NewText(env, Owner(st, op), before, op);
      match KindOf(op)
      case Create => (CreateFile(st, name, text), CreatedItem(st.nextId))
      case Delete => (DeleteFile(st, Target(op).value), DeletedItem(Target(op).value, before))
      case Rename =>
        (RenameFile(st, Target(op).value, name, before, text),
         RenamedItem(Target(op).value, before, st.records[Target(op).value].filename))
      case Modify => (Put(st, Target(op).value, text), ModifiedItem(Target(op).value, before))
  }

  // ----- A whole patch -----

  /** How far an apply got. */
  datatype Progress = Progress(store: Store, items: seq<Item>, ok: bool)

  function ApplyAll(env: Env, st: Store, ops: seq<RawOp>): Progress
    decreases |ops|
  {
    if ops == [] then Progress(st, [], true)
    else if !Appliable(env, st, ops[0]) then Progress(st, [], false)
    else
      var (st1, item) := Effect(env, st, ops[0]);
      var rest := ApplyAll(env, st1, ops[1..]);
      Progress(rest.store, [item] + rest.items, rest.ok)
  }

  /** After a failure the database work is undone, but not what was written to the object store. */
  function Discarded(st: Store, reached: Store): Store {
    st.(objects := reached.objects, nextId := reached.nextId)
  }

  predicate Touches(item: Item, id: nat) {
    !item.FolderItem? && item.file == id
  }

  /** Rolling one snapshot item back. */
  function RestoreItem(st: Store, item: Item): Store {
    match item
    case FolderItem(f) => st.(folders := Without(st.folders, f))
    case CreatedItem(id) =>
      if id !in st.records then st
      else
        st.(records := st.records[id := st.records[id].(status := Deleted)],
            fileIds := Without(st.fileIds, id),
            objects := st.objects - {id})
    case DeletedItem(id, content) =>
      if id !in st.records then st
      else
        Put(st.(records := st.records[id := st.records[id].(status := Active)],
                fileIds := if id in st.fileIds then st.fileIds else st.fileIds + [id]), id, content)
    case RenamedItem(id, content, name) =>
      if id !in st.records then st
      else Put(st.(records := st.records[id := st.records[id].(filename := if name != "" then name else st.records[id].filename)]),
               id, content)
    case ModifiedItem(id, content) =>
      if id !in st.records then st else Put(st, id, content)
  }

  /** In the order of the snapshot, first item first. */
  function RestoreAll(st: Store, items: seq<Item>): Store
    decreases |items|
  {
    if items == [] then st else RestoreAll(RestoreItem(st, items[0]), items[1..])
  }

  // ----- Snapshots -----

  type Snapshot = seq<Item>

  /** The files and the undo stack. */
  datatype Work = Work(store: Store, snapshots: seq<Snapshot>)

  /** The last ten snapshots and the new one. */
  function Push(snapshots: seq<Snapshot>, items: Snapshot): seq<Snapshot> {
    (if |snapshots| <= 10 then snapshots else snapshots[|snapshots| - 10..]) + [items]
  }

  function ApplyPatch(env: Env, w: Work, ops: seq<RawOp>): Work {
    var p := ApplyAll(env, w.store, ops);
    if p.ok then Work(p.store, Push(w.snapshots, p.items)) else w.(store := Discarded(w.store, p.store))
  }

  /** Without an index the newest snapshot is taken. */
  function Rollback(w: Work, index: Option<nat>): Result<Work, string> {
    if w.snapshots == [] then Err("No rollback snapshot available")
    else if index.Some? && index.value >= |w.snapshots| then Err("Rollback snapshot not found")
    else
      var i := if index.Some? then index.value else |w.snapshots| - 1;
      Ok(Work(RestoreAll(w.store, w.snapshots[i]), w.snapshots[..i] + w.snapshots[i + 1..]))
  }
}
