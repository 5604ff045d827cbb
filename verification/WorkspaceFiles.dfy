// The store seen file by file: what an operation or a restored item changes, and what it leaves alone.
module WorkspaceFiles {
  import opened EditScripts
  import opened PatchPayload
  import opened Workspace
  import opened Wrappers

  // ----- One file of the store -----

  datatype FileView = FileView(record: Option<Record>, text: Option<Lines>, listed: bool)

  function ViewOf(st: Store, id: nat): FileView {
    FileView(
      if id in st.records then Some(st.records[id]) else None,
      if id in st.objects then Some(st.objects[id]) else None,
      id in st.fileIds)
  }

  /** A file that was created and taken back. */
  predicate Gone(v: FileView) {
    v.record.Some? && v.record.value.status == Deleted && v.text == None && !v.listed
  }

  /** The record describes the stored object. */
  predicate Agrees(v: FileView) {
    v.record.Some? && v.record.value.status == Active ==>
      v.text.Some? && v.record.value.checksum == Sha256(v.text.value) && v.record.value.size == SizeOf(v.text.value)
  }

  /** Same name, status and place in the session. */
  predicate SamePlace(v: FileView, w: FileView) {
    v.record.Some? && w.record.Some? && v.listed == w.listed
    && v.record.value.filename == w.record.value.filename && v.record.value.status == w.record.value.status
  }

  /** The file with its object replaced by the text read from it. */
  function Reread(env: Env, v: FileView): FileView {
    if v.record.Some? && v.text.Some? && env.read(v.record.value.filename, v.text.value).Some? then
      var text := env.read(v.record.value.filename, v.text.value).value;
      v.(text := Some(text), record := Some(v.record.value.(size := SizeOf(text), checksum := Sha256(text))))
    else v
  }

  /** Reading the file's object gives the object itself. */
  predicate ReadsBack(env: Env, v: FileView) {
    v.record.Some? && v.text.Some? ==> env.read(v.record.value.filename, v.text.value) in {None, v.text}
  }

  ghost predicate Consistent(st: Store) {
    forall id <- st.records :: Agrees(ViewOf(st, id))
  }

  ghost predicate Distinct(ids: seq<nat>) {
    forall i, j :: 0 <= i < j < |ids| ==> ids[i] != ids[j]
  }

  /** Unused ids are unused, the session lists known files once each, files have names. */
  ghost predicate Orderly(st: Store) {
    && (forall id <- st.records :: id < st.nextId && st.records[id].filename != "")
    && (forall id <- st.objects :: id < st.nextId)
    && (forall id <- st.fileIds :: id in st.records)
    && Distinct(st.fileIds)
  }

  // ----- Lists -----

  lemma {:induction false} WithoutMember<T>(s: seq<T>, x: T, y: T)
    ensures y in Without(s, x) <==> y in s && y != x
  {
    if s != [] {
      WithoutMember(s[1..], x, y);
      assert s == [s[0]] + s[1..];
    }
  }

  lemma {:induction false} UnlistedMember(s: seq<nat>, x: nat, y: nat)
    requires Distinct(s)
    ensures y in Unlisted(s, x) <==> y in s && y != x
  {
    if s != [] {
      assert s == [s[0]] + s[1..];
      UnlistedMember(s[1..], x, y);
    }
  }

  lemma {:induction false} UnlistedDistinct(s: seq<nat>, x: nat)
    requires Distinct(s)
    ensures Distinct(Unlisted(s, x))
  {
    if s != [] && s[0] != x {
      UnlistedDistinct(s[1..], x);
      var r, rest := Unlisted(s, x), Unlisted(s[1..], x);
      forall i, j | 0 <= i < j < |r| ensures r[i] != r[j] {
        assert r[j] == rest[j - 1];
        UnlistedMember(s[1..], x, rest[j - 1]);
      }
    }
  }

  // ----- What one operation and one restored item leave alone -----

  lemma SafeIsNonEmpty(name: string)
    ensures SafeFilename(name).Ok? ==> SafeFilename(name).value != ""
  {
  }

  lemma DeleteKeepsOrder(st: Store, id: nat)
    requires Orderly(st) && id in st.records
    ensures Orderly(DeleteFile(st, id))
  {
    UnlistedDistinct(st.fileIds, id);
    forall y | y in Unlisted(st.fileIds, id) ensures y in st.records {
      UnlistedMember(st.fileIds, id, y);
    }
  }

  lemma CreateKeepsOrder(st: Store, name: string, text: Lines)
    requires Orderly(st) && name != ""
    ensures Orderly(CreateFile(st, name, text))
  {
    hide SizeOf;
    forall i | 0 <= i < |st.fileIds| ensures st.fileIds[i] != st.nextId {
      assert st.fileIds[i] in st.records;
    }
  }

  lemma RenameKeepsOrder(st: Store, id: nat, name: string, before: Lines, text: Lines)
    requires Orderly(st) && id in st.records && name != ""
    ensures Orderly(RenameFile(st, id, name, before, text))
  {
    hide SizeOf;
  }

  lemma PutKeepsOrder(st: Store, id: nat, text: Lines)
    requires Orderly(st) && id in st.records
    ensures Orderly(Put(st, id, text))
  {
    hide SizeOf;
  }

  lemma EffectKeepsOrder(env: Env, st: Store, op: RawOp)
    requires Orderly(st) && Appliable(env, st, op)
    ensures var st1 := Effect(env, st, op).0;
      && Orderly(st1) && st.nextId <= st1.nextId
      && st1.records.Keys == st.records.Keys + if KindOf(op) == Create then {st.nextId} else {}
  {
    hide NewText, KindOf, SizeOf, SafeFilename, Orderly, Unlisted;
    if KindOf(op) == Folder {
      MakeFolderKeepsOrder(st, SafeFilename(op.filename).value);
    } else {
      var name, before := TargetName(st, op).value, OldText(env, st, op);
      SafeIsNonEmpty(if op.newFilename != "" then op.newFilename else OldName(st, op).value);
      var text := NewText(env, Owner(st, op), before, op);
      match KindOf(op)
      case Create => CreateKeepsOrder(st, name, text);
      case Delete => DeleteKeepsOrder(st, Target(op).value);
      case Rename => RenameKeepsOrder(st, Target(op).value, name, before, text);
      case Modify => PutKeepsOrder(st, Target(op).value, text);
    }
  }

  lemma MakeFolderKeepsOrder(st: Store, folder: string)
    requires Orderly(st)
    ensures Orderly(MakeFolder(st, folder))
  {
  }

  lemma EffectElsewhere(env: Env, st: Store, op: RawOp, id: nat)
    requires Orderly(st) && Appliable(env, st, op) && !Touches(Effect(env, st, op).1, id)
    ensures ViewOf(Effect(env, st, op).0, id) == ViewOf(st, id)
  {
    hide NewText, KindOf, SizeOf, SafeFilename;
    if KindOf(op) == Delete {
      UnlistedMember(st.fileIds, Target(op).value, id);
    }
  }

  lemma RestoreElsewhere(st: Store, item: Item, id: nat)
    requires !Touches(item, id)
    ensures ViewOf(RestoreItem(st, item), id) == ViewOf(st, id)
  {
    hide SizeOf;
    if item.CreatedItem? {
      WithoutMember(st.fileIds, item.file, id);
    }
  }

  lemma RestoreKeepsKeys(st: Store, item: Item)
    ensures RestoreItem(st, item).records.Keys == st.records.Keys
  {
  }

  lemma {:induction false} RestoreAllElsewhere(st: Store, items: seq<Item>, id: nat)
    requires forall k :: 0 <= k < |items| ==> !Touches(items[k], id)
    ensures ViewOf(RestoreAll(st, items), id) == ViewOf(st, id)
    decreases |items|
  {
    hide RestoreItem, ViewOf, Touches;
    if items != [] {
      RestoreElsewhere(st, items[0], id);
      RestoreAllElsewhere(RestoreItem(st, items[0]), items[1..], id);
    }
  }

  lemma {:induction false} RestoreAllKeepsKeys(st: Store, items: seq<Item>)
    ensures RestoreAll(st, items).records.Keys == st.records.Keys
    decreases |items|
  {
    hide RestoreItem;
    if items != [] {
      RestoreKeepsKeys(st, items[0]);
      RestoreAllKeepsKeys(RestoreItem(st, items[0]), items[1..]);
    }
  }

  lemma RestoreKeepsOrder(st: Store, item: Item)
    requires Orderly(st)
    ensures Orderly(RestoreItem(st, item))
  {
    hide SizeOf;
    match item
    case FolderItem(_) =>
    case CreatedItem(id) =>
      WithoutDistinct(st.fileIds, id);
      forall y | y in Without(st.fileIds, id) ensures y in st.records {
        WithoutMember(st.fileIds, id, y);
      }
    case _ =>
  }

  lemma {:induction false} WithoutDistinct(s: seq<nat>, x: nat)
    requires Distinct(s)
    ensures Distinct(Without(s, x))
  {
    if s != [] {
      WithoutDistinct(s[1..], x);
      var r, rest := Without(s, x), Without(s[1..], x);
      forall j | 0 <= j < |rest| ensures rest[j] != s[0] {
        WithoutMember(s[1..], x, rest[j]);
      }
      assert r == if s[0] == x then rest else [s[0]] + rest;
    }
  }

  lemma {:induction false} RestoreAllKeepsOrder(st: Store, items: seq<Item>)
    requires Orderly(st)
    ensures Orderly(RestoreAll(st, items))
    decreases |items|
  {
    hide Orderly, RestoreItem;
    if items != [] {
      RestoreKeepsOrder(st, items[0]);
      RestoreAllKeepsOrder(RestoreItem(st, items[0]), items[1..]);
    }
  }

  lemma {:induction false} ApplyAllKeepsOrder(env: Env, st: Store, ops: seq<RawOp>)
    requires Orderly(st)
    ensures var p := ApplyAll(env, st, ops);
      Orderly(p.store) && st.nextId <= p.store.nextId && st.records.Keys <= p.store.records.Keys
    decreases |ops|
  {
    hide Orderly, Effect, Appliable;
    if ops != [] && Appliable(env, st, ops[0]) {
      EffectKeepsOrder(env, st, ops[0]);
      ApplyAllKeepsOrder(env, Effect(env, st, ops[0]).0, ops[1..]);
    }
  }

  lemma KnownIds(st: Store, id: nat)
    requires Orderly(st) && id in st.records
    ensures id < st.nextId
  {
  }

  lemma SameView(a: Store, b: Store, id: nat)
    requires ViewOf(a, id) == ViewOf(b, id)
    ensures (id in a.records <==> id in b.records) && (AgreesAt(a, id) <==> AgreesAt(b, id))
  {
  }

  // ----- The targets of a patch -----

  /** The patch targets distinct active files; what it deletes is in the session. */
  ghost predicate DistinctTargets(st: Store, ops: seq<RawOp>) {
    && (forall i, j :: 0 <= i < j < |ops| && Targeted(ops[i]) && Targeted(ops[j]) ==> Target(ops[i]) != Target(ops[j]))
    && forall i :: 0 <= i < |ops| && Targeted(ops[i]) ==> GoodTarget(st, ops[i])
  }

  predicate GoodTarget(st: Store, op: RawOp) {
    && Found(st, op) && st.records[Target(op).value].status == Active
    && (KindOf(op) == Delete ==> Target(op).value in st.fileIds)
  }

  lemma GoodTargetStays(env: Env, st: Store, op: RawOp, other: RawOp)
    requires Orderly(st) && Appliable(env, st, op) && GoodTarget(st, other) && Target(other).value in st.records
    requires Targeted(op) ==> Target(op) != Target(other)
    ensures GoodTarget(Effect(env, st, op).0, other)
  {
    hide NewText, KindOf;
    var id := Target(other).value;
    assert !Touches(Effect(env, st, op).1, id);
    EffectElsewhere(env, st, op, id);
    assert ViewOf(Effect(env, st, op).0, id) == ViewOf(st, id);
  }

  lemma DistinctTargetsStay(env: Env, st: Store, ops: seq<RawOp>)
    requires Orderly(st) && ops != [] && Appliable(env, st, ops[0]) && DistinctTargets(st, ops)
    ensures DistinctTargets(Effect(env, st, ops[0]).0, ops[1..])
  {
    hide Orderly, Appliable, Effect;
    forall i | 0 <= i < |ops[1..]| && Targeted(ops[1..][i]) ensures GoodTarget(Effect(env, st, ops[0]).0, ops[1..][i]) {
      assert ops[1..][i] == ops[i + 1];
      GoodTargetStays(env, st, ops[0], ops[i + 1]);
    }
  }

  /** Item by item: the files a patch touches are its targets and the ones it creates. */
  lemma {:induction false} ItemsTouch(env: Env, st: Store, ops: seq<RawOp>, k: nat)
    requires Orderly(st) && k < |ApplyAll(env, st, ops).items|
    ensures k < |ops|
    ensures var item := ApplyAll(env, st, ops).items[k];
      if Targeted(ops[k]) then Target(ops[k]).Some? && !item.FolderItem? && item.file == Target(ops[k]).value
      else item.FolderItem? || item.file >= st.nextId
    decreases |ops|
  {
    hide Orderly;
    EffectKeepsOrder(env, st, ops[0]);
    var st1 := Effect(env, st, ops[0]).0;
    if k > 0 {
      ItemsTouch(env, st1, ops[1..], k - 1);
    }
  }

  lemma {:induction false} ApplyAllElsewhere(env: Env, st: Store, ops: seq<RawOp>, id: nat)
    requires Orderly(st) && id < st.nextId
    requires forall i :: 0 <= i < |ops| && Targeted(ops[i]) ==> Target(ops[i]) != Some(id)
    ensures var p := ApplyAll(env, st, ops);
      && ViewOf(p.store, id) == ViewOf(st, id)
      && forall k :: 0 <= k < |p.items| ==> !Touches(p.items[k], id)
    decreases |ops|
  {
    hide Orderly, ViewOf, NewText, KindOf;
    if ops != [] && Appliable(env, st, ops[0]) {
      EffectKeepsOrder(env, st, ops[0]);
      EffectElsewhere(env, st, ops[0], id);
      ApplyAllElsewhere(env, Effect(env, st, ops[0]).0, ops[1..], id);
    }
  }

  lemma OtherTargets(st: Store, ops: seq<RawOp>, id: nat)
    requires DistinctTargets(st, ops) && ops != [] && Targeted(ops[0]) && Target(ops[0]) == Some(id)
    ensures forall i :: 0 <= i < |ops[1..]| && Targeted(ops[1..][i]) ==> Target(ops[1..][i]) != Some(id)
  {
  }

  lemma FirstItem(env: Env, st: Store, ops: seq<RawOp>)
    requires ops != [] && Appliable(env, st, ops[0])
    ensures ApplyAll(env, st, ops).items != [] && ApplyAll(env, st, ops).items[0] == Effect(env, st, ops[0]).1
  {
  }

  lemma FirstTarget(env: Env, st: Store, ops: seq<RawOp>, id: nat)
    requires Orderly(st) && DistinctTargets(st, ops) && ops != [] && Appliable(env, st, ops[0]) && id < st.nextId
    requires Touches(Effect(env, st, ops[0]).1, id)
    ensures Targeted(ops[0]) && Target(ops[0]) == Some(id) && GoodTarget(st, ops[0])
  {
    hide Appliable, NewText, KindOf;
  }

  // ----- Records agree with their objects -----

  ghost predicate AgreesAt(st: Store, id: nat) {
    Agrees(ViewOf(st, id))
  }

  lemma EffectConsistent(env: Env, st: Store, op: RawOp)
    requires Appliable(env, st, op) && Consistent(st) && (forall id <- st.records :: id != st.nextId)
    ensures Consistent(Effect(env, st, op).0)
  {
    hide NewText, KindOf, SizeOf, SafeFilename;
    var st1 := Effect(env, st, op).0;
    forall id | id in st1.records ensures Agrees(ViewOf(st1, id)) {
      if id in st.records {
        assert Agrees(ViewOf(st, id));
      }
    }
  }

  lemma {:induction false} ApplyAllConsistent(env: Env, st: Store, ops: seq<RawOp>)
    requires Orderly(st) && Consistent(st)
    ensures Consistent(ApplyAll(env, st, ops).store)
    decreases |ops|
  {
    hide Consistent, Effect, Appliable;
    if ops != [] && Appliable(env, st, ops[0]) {
      EffectConsistent(env, st, ops[0]);
      EffectKeepsOrder(env, st, ops[0]);
      ApplyAllConsistent(env, Effect(env, st, ops[0]).0, ops[1..]);
    }
  }

  lemma RestoreConsistent(st: Store, item: Item)
    requires Consistent(st)
    ensures Consistent(RestoreItem(st, item))
  {
    hide SizeOf, Without;
    var st1 := RestoreItem(st, item);
    forall id | id in st1.records ensures Agrees(ViewOf(st1, id)) {
      assert Agrees(ViewOf(st, id));
    }
  }

  lemma {:induction false} RestoreAllConsistent(st: Store, items: seq<Item>)
    requires Consistent(st)
    ensures Consistent(RestoreAll(st, items))
    decreases |items|
  {
    hide Consistent, RestoreItem;
    if items != [] {
      RestoreConsistent(st, items[0]);
      RestoreAllConsistent(RestoreItem(st, items[0]), items[1..]);
    }
  }
}
