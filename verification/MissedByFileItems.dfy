// Lists of file items whose ids do not keep to their files: the runs in which a change is missed
// (backend/services/agent/code_workspace.py, _normalize_patch_operations and reject_patch_payload).
module MissedByFileItems {
  import opened CodeSessions
  import opened LostUpdates
  import opened MissedUpdates
  import opened PatchPayload
  import opened PatchSelection
  import opened SessionRuns
  import opened SharedIds
  import opened ShownEntries
  import opened Strings
  import opened Sublists
  import opened Workspace
  import opened WorkspacePreviews
  import opened Wrappers

  // ----- File items -----

  lemma {:induction false} FileItemAt(raws: seq<Option<RawOp>>, index: nat, k: nat)
    requires AllObjects(raws) && k < |raws| && NormalizeItems(raws, true, index).Ok?
    ensures NormalizeFile(raws[k].value, index + k).Ok?
    ensures var r := FileOps(raws, index); |r| == |raws| && r[k] == NormalizeFile(raws[k].value, index + k).value
    decreases |raws|
  {
    hide NormalizeFile;
    if k > 0 {
      FileItemAt(raws[1..], index + 1, k - 1);
    } else if |raws| > 1 {
      FileItemAt(raws[1..], index + 1, 0);
    }
  }

  lemma ReadFromItem(raws: seq<Option<RawOp>>, op: RawOp) returns (k: nat)
    requires AllObjects(raws) && NormalizeItems(raws, true, 0).Ok? && op in FileOps(raws, 0)
    ensures k < |raws| && NormalizeFile(raws[k].value, k) == Ok(op)
  {
    hide NormalizeFile, NormalizeItems;
    if raws != [] {
      FileItemAt(raws, 0, 0);
    } else {
      NothingRead({}, {}, 0, 0);
    }
    k :| 0 <= k < |FileOps(raws, 0)| && FileOps(raws, 0)[k] == op;
    FileItemAt(raws, 0, k);
  }

  /** What a reject leaves of file items can be worked on as before. */
  lemma LeftIsWorkable(raws: seq<Option<RawOp>>, ids: set<string>)
    requires AllObjects(raws) && NormalizeItems(raws, true, 0).Ok? && NormalizeItems(LeftRaws(raws, {}, ids), true, 0).Ok?
    requires forall op <- FileOps(raws, 0) :: Workable(op)
    ensures forall op <- FileOps(LeftRaws(raws, {}, ids), 0) :: Workable(op)
  {
    hide NormalizeFile, NormalizeItems, RawPicked, Picked, KindOf, Stable, FileOps;
    var left := LeftRaws(raws, {}, ids);
    forall op | op in FileOps(left, 0) ensures Workable(op) {
      var k := ReadFromItem(left, op);
      var raw := left[k].value;
      RawPickedMember(raws, {}, ids, false, raw);
      var m :| 0 <= m < |raws| && raws[m] == Some(raw);
      FileItemAt(raws, 0, m);
      var other := FileOps(raws, 0)[m];
      assert other in FileOps(raws, 0);
      FileItemAnywhere(raw, m, k);
      SameButId(other, op);
    }
  }

  lemma SameButId(a: RawOp, b: RawOp)
    requires Workable(a) && b == a.(operationId := b.operationId)
    ensures Workable(b)
  {
    hide Stable;
  }

  lemma {:induction false} SomeRawLeft(raws: seq<Option<RawOp>>, ids: set<string>, k: nat)
    requires AllObjects(raws) && k < |raws| && !Picked(raws[k].value, {}, ids)
    ensures raws[k].value in RawPicked(raws, {}, ids, false) && Some(raws[k].value) in LeftRaws(raws, {}, ids)
  {
    hide RawPicked, Picked;
    RawPickedMember(raws, {}, ids, false, raws[k].value);
    var left := RawPicked(raws, {}, ids, false);
    var m :| 0 <= m < |left| && left[m] == raws[k].value;
    assert Wrapped(left)[m] == Some(raws[k].value);
  }

  lemma RejectOfFiles(s: Session, ids: set<string>, k: nat)
    requires s.patch.Some? && FilesShaped(s.patch.value) && AllObjects(s.patch.value.files) && ids != {}
    requires k < |s.patch.value.files| && !Picked(s.patch.value.files[k].value, {}, ids)
    ensures var r := Reject(s, {}, ids);
      r.Ok? && r.value.0 == s.(patch := Some(FilesLeft(s.patch.value, {}, ids)), preview := KeptItems(s.preview, {}, ids))
  {
    hide RawPicked, KeptItems, Picked;
    SomeRawLeft(s.patch.value.files, ids, k);
  }

  lemma FilesLeftReady(env: Env, s: Session, ids: set<string>)
    requires Ready(env, s) && FilesShaped(s.patch.value) && AllObjects(s.patch.value.files)
    ensures Ready(env, s.(patch := Some(FilesLeft(s.patch.value, {}, ids))))
  {
    hide Normalize, KindOf, Workable, Pending, LeftRaws, FileOps, ReadsAll, AllOwnIds, OnFiles, Unpicked;
    FilesLeftReads(s.patch.value, {}, ids);
    NoOperationItems(s.patch.value);
    NoOperationItems(FilesLeft(s.patch.value, {}, ids));
    LeftIsWorkable(s.patch.value.files, ids);
  }

  lemma MakersOfModifies(ops: seq<RawOp>, id: string)
    requires Modifies(ops)
    ensures Makers(ops, id) == WithId(OnFiles(ops), id)
  {
    hide Filter, KindOf;
    forall op | op in ops ensures MakesEntry(op) <==> OnFile(op) {
      FileItemIsModify(op);
    }
    FilterTwice(ops, (op: RawOp) => OnFile(op), (op: RawOp) => op.operationId == id && MakesEntry(op));
    forall op | op in OnFiles(ops) ensures MakesEntry(op) {
      OnFilesMember(ops, op);
    }
    SameFilter(OnFiles(ops), (op: RawOp) => op.operationId == id && MakesEntry(op), (op: RawOp) => op.operationId == id);
  }

  /** From a list of file items all other ids can be rejected, too. */
  lemma NarrowFiles(env: Env, s: Session, op: RawOp) returns (prefix: seq<Action>)
    requires Ready(env, s) && s.preview == [] && op in Pending(s.patch) && OnFile(op)
    requires FilesShaped(s.patch.value) && AllObjects(s.patch.value.files) && AllOwnIds(s.patch.value.files)
    requires forall o <- Pending(s.patch) :: !Blank(o.operationId)
    ensures Narrows(env, s, prefix)
    ensures var t := After(env, s, prefix);
      && Ready(env, t) && t.preview == [] && Makers(Pending(t.patch), op.operationId) == Makers(Pending(s.patch), op.operationId)
      && op in Pending(t.patch) && OnlyWith(Pending(t.patch), op.operationId)
  {
    hide Normalize, KindOf, Workable, Pending, Filter, Blank, Reject, Narrows, Unpicked, WithId, OtherIds, OnFiles, FileOps,
      NormalizeItems, FilesLeft, NormalizeFile, OnFile, HasOwnId, ReadsAll, Makers;
    var p, ops, id := s.patch.value, Pending(s.patch), op.operationId;
    var others := OtherIds(OnFiles(ops), id);
    ReadyReads(env, s);
    OthersUnpicked(OnFiles(ops), id);
    if others == {} {
      prefix := [];
      NoAction(env, s);
      forall o | o in ops && OnFile(o) ensures o.operationId == id {
        OnFilesMember(ops, o);
        WithIdMember(OnFiles(ops), id, o);
      }
    } else {
      prefix := [RejectAction({}, others)];
      forall o | o in OnFiles(ops) ensures !Blank(o.operationId) {
        OnFilesMember(ops, o);
      }
      NonBlankOthers(OnFiles(ops), id);
      FilesLeftReads(p, {}, others);
      var k := ReadFromItem(p.files, op);
      OwnIdStays(p.files[k].value, op, k, OnFiles(ops));
      RejectOfFiles(s, others, k);
      NothingKept({}, others);
      FilesLeftReady(env, s, others);
      OneReject(env, s, others);
      var left := Pending(Some(FilesLeft(p, {}, others)));
      NarrowedMakers(ops, left, op);
    }
  }

  lemma ReadyReads(env: Env, s: Session)
    requires Ready(env, s) && FilesShaped(s.patch.value)
    ensures Normalize(s.patch.value).Ok? && NormalizeItems(s.patch.value.files, true, 0).Ok?
    ensures Pending(s.patch) == FileOps(s.patch.value.files, 0)
  {
    hide NormalizeItems;
    NoOperationItems(s.patch.value);
  }

  lemma OwnIdStays(raw: RawOp, op: RawOp, k: nat, ops: seq<RawOp>)
    requires NormalizeFile(raw, k) == Ok(op) && OnFile(op) && HasOwnId(raw)
    ensures !Picked(raw, {}, OtherIds(ops, op.operationId))
  {
    hide NormalizeFile, KindOf;
    FileItemAnywhere(raw, k, k);
  }

  lemma NarrowedMakers(ops: seq<RawOp>, left: seq<RawOp>, op: RawOp)
    requires Modifies(ops) && Modifies(left) && op in ops && OnFile(op)
    requires OnFiles(left) == WithId(OnFiles(ops), op.operationId)
    ensures Makers(left, op.operationId) == Makers(ops, op.operationId) && op in left && OnlyWith(left, op.operationId)
  {
    hide Filter, OnFile, Makers, WithId, OnFiles;
    var id := op.operationId;
    MakersOfModifies(ops, id);
    MakersOfModifies(left, id);
    WithIdTwice(OnFiles(ops), id);
    OnFilesMember(ops, op);
    WithIdMember(OnFiles(ops), id, op);
    OnFilesMember(left, op);
    forall o | o in left && OnFile(o) ensures o.operationId == id {
      OnFilesMember(left, o);
      WithIdMember(OnFiles(ops), id, o);
    }
  }

  lemma WithIdTwice(ops: seq<RawOp>, id: string)
    ensures WithId(WithId(ops, id), id) == WithId(ops, id)
  {
    FilterTwice(ops, (op: RawOp) => op.operationId == id, (op: RawOp) => op.operationId == id);
  }

  /** In a list of file items, two files under one id let a change be missed. */
  lemma {:induction false} SharedFileIdMisses(env: Env, s: Session, op: RawOp) returns (actions: seq<Action>)
    requires Ready(env, s) && s.preview == [] && op in Pending(s.patch) && EndsElsewhere(Pending(s.patch), op)
    requires FilesShaped(s.patch.value) && AllObjects(s.patch.value.files) && AllOwnIds(s.patch.value.files)
    requires forall o <- Pending(s.patch) :: !Blank(o.operationId)
    ensures Misses(env, s, actions, OnlyFile(op.file.id), op)
  {
    hide Ready, Pending, Blank, Narrows, OnlyWith, Misses, KindOf, Makers, HasOwnId, FilesShaped;
    var prefix := NarrowFiles(env, s, op);
    var rest := ElsewhereIsMissed(env, After(env, s, prefix), op);
    MissesLater(env, s, prefix, rest, OnlyFile(op.file.id), op);
    actions := prefix + rest;
  }

  // ----- File items without an operation id -----

  predicate NoOwnIds(raws: seq<Option<RawOp>>)
    requires AllObjects(raws)
  {
    forall k :: 0 <= k < |raws| ==> raws[k].value.operationId == ""
  }

  function OwnedIds(raws: seq<Option<RawOp>>): set<string>
    requires AllObjects(raws)
  {
    set k | 0 <= k < |raws| && raws[k].value.operationId != "" :: raws[k].value.operationId
  }

  lemma IdOfItem(raw: RawOp, k: nat, op: RawOp)
    requires NormalizeFile(raw, k) == Ok(op)
    ensures op.operationId == IdOf(raw, "file-", k) && op.operationId != ""
  {
    hide NormalizeName;
  }

  lemma GeneratedNotBlank(raw: RawOp, k: nat)
    requires raw.operationId == "" && (raw.id != "" ==> !Blank(raw.id))
    ensures !Blank(IdOf(raw, "file-", k))
  {

    if raw.id == "" {
      assert !IsSpace(IdOf(raw, "file-", k)[0]);
    }
  }

  /** The items with operation ids of their own can be rejected by them. */
  lemma RejectOwned(env: Env, s: Session, i: nat) returns (prefix: seq<Action>)
    requires Ready(env, s) && s.preview == [] && FilesShaped(s.patch.value) && AllObjects(s.patch.value.files)
    requires i < |s.patch.value.files| && s.patch.value.files[i].value.operationId == ""
    requires forall o <- Pending(s.patch) :: !Blank(o.operationId)
    ensures Narrows(env, s, prefix)
    ensures var t := After(env, s, prefix);
      && Ready(env, t) && t.preview == [] && FilesShaped(t.patch.value) && AllObjects(t.patch.value.files) && NoOwnIds(t.patch.value.files)
      && s.patch.value.files[i] in t.patch.value.files
      && forall raw <- t.patch.value.files :: raw in s.patch.value.files
  {
    hide Normalize, KindOf, Workable, Pending, Blank, Reject, Narrows, RawPicked, FileOps, NormalizeItems, NormalizeFile, ReadsAll;
    var p := s.patch.value;
    var owned := OwnedIds(p.files);
    ReadyReads(env, s);
    if owned == {} {
      prefix := [];
      NoAction(env, s);
      forall k | 0 <= k < |p.files| ensures p.files[k].value.operationId == "" {
        OwnedMember(p.files, k);
      }
    } else {
      prefix := [RejectAction({}, owned)];
      OwnedNotBlank(p.files);
      RejectOfFiles(s, owned, i);
      NothingKept({}, owned);
      FilesLeftReady(env, s, owned);
      OneReject(env, s, owned);
      SomeRawLeft(p.files, owned, i);
      UnownedLeft(p.files);
    }
  }

  lemma OwnedNotBlank(raws: seq<Option<RawOp>>)
    requires AllObjects(raws) && NormalizeItems(raws, true, 0).Ok?
    requires forall o <- FileOps(raws, 0) :: !Blank(o.operationId)
    ensures forall id <- OwnedIds(raws) :: !Blank(id)
  {
    hide Blank, NormalizeItems, NormalizeFile, FileOps;
    forall id | id in OwnedIds(raws) ensures !Blank(id) {
      var k :| 0 <= k < |raws| && raws[k].value.operationId != "" && raws[k].value.operationId == id;
      FileItemAt(raws, 0, k);
      IdOfItem(raws[k].value, k, FileOps(raws, 0)[k]);
      assert FileOps(raws, 0)[k] in FileOps(raws, 0);
    }
  }

  lemma UnownedLeft(raws: seq<Option<RawOp>>)
    requires AllObjects(raws)
    ensures var left := LeftRaws(raws, {}, OwnedIds(raws)); NoOwnIds(left) && forall raw <- left :: raw in raws
  {
    hide RawPicked;
    var owned := OwnedIds(raws);
    var left := LeftRaws(raws, {}, owned);
    forall k | 0 <= k < |left| ensures left[k].value.operationId == "" && left[k] in raws {
      RawPickedMember(raws, {}, owned, false, left[k].value);
      var m :| 0 <= m < |raws| && raws[m] == left[k];
      OwnedMember(raws, m);
    }
  }

  lemma OwnedMember(raws: seq<Option<RawOp>>, m: nat)
    requires AllObjects(raws) && m < |raws|
    ensures raws[m].value.operationId != "" ==> raws[m].value.operationId in OwnedIds(raws)
  {
  }

  /** All ids under which the operations are shown. */
  function ShownIds(ops: seq<RawOp>): set<string> {
    set op <- ops :: op.operationId
  }

  lemma {:induction false} NonePicked(raws: seq<Option<RawOp>>, ids: set<string>)
    requires AllObjects(raws) && NoOwnIds(raws) && "" !in ids
    ensures LeftRaws(raws, {}, ids) == raws
  {
    if raws == [] {
    } else {
      var raw, rest := raws[0].value, raws[1..];
      assert raws == [Some(raw)] + rest;
      NonePicked(rest, ids);
      LeftRawsCons(raw, rest, {}, ids);
    }
  }

  lemma AllDropped(st: Store, ops: seq<RawOp>)
    ensures KeptItems(PreviewList(st, ops, []), {}, ShownIds(ops)) == []
  {
    hide Filter, PreviewOf, PreviewList;
    var items, ids := PreviewList(st, ops, []), ShownIds(ops);
    var kept := KeptItems(items, {}, ids);
    if kept != [] {
      FilterMember(items, (item: PreviewItem) => !ItemPicked(item, {}, ids), kept[0]);
      var op := ItemHasOp(st, ops, [], kept[0]);
      EntryHasId(st, op, []);
    }
  }

  /** Rejecting by all shown ids takes nothing, but drops all entries. */
  lemma RejectDropsEntries(s: Session, i: nat, st: Store)
    requires s.patch.Some? && FilesShaped(s.patch.value) && AllObjects(s.patch.value.files) && NoOwnIds(s.patch.value.files)
    requires i < |s.patch.value.files| && "" !in ShownIds(Pending(s.patch)) && ShownIds(Pending(s.patch)) != {}
    requires s.preview == PreviewList(st, Pending(s.patch), [])
    ensures var r := Reject(s, {}, ShownIds(Pending(s.patch))); r.Ok? && r.value.0 == s.(preview := [])
  {
    hide RawPicked, KeptItems, Pending, PreviewList, LeftRaws, Reject;
    var p, ids := s.patch.value, ShownIds(Pending(s.patch));
    NonePicked(p.files, ids);
    AllDropped(st, Pending(s.patch));
    RejectOfFiles(s, ids, i);
    assert p.(files := p.files) == p;
  }

  lemma ShownNotBlank(raws: seq<Option<RawOp>>)
    requires AllObjects(raws) && NormalizeItems(raws, true, 0).Ok? && NoOwnIds(raws) && raws != []
    requires forall raw <- raws :: raw.value.id != "" ==> !Blank(raw.value.id)
    ensures var ids := ShownIds(FileOps(raws, 0)); ids != {} && "" !in ids && forall id <- ids :: !Blank(id)
  {
    hide Blank, NormalizeItems, NormalizeFile, FileOps, IdOf;
    var ops := FileOps(raws, 0);
    FileItemAt(raws, 0, 0);
    assert ops[0].operationId in ShownIds(ops);
    forall op | op in ops ensures op.operationId != "" && !Blank(op.operationId) {
      var k := ReadFromItem(raws, op);
      IdOfItem(raws[k].value, k, op);
      assert raws[k] in raws;
      GeneratedNotBlank(raws[k].value, k);
    }
  }

  /** With no operation ids left, a change of any file is missed. */
  lemma UnownedIsMissed(env: Env, s: Session, i: nat) returns (actions: seq<Action>, op: RawOp)
    requires Ready(env, s) && s.preview == [] && FilesShaped(s.patch.value) && AllObjects(s.patch.value.files)
    requires NoOwnIds(s.patch.value.files) && i < |s.patch.value.files| && s.patch.value.files[i].value.file.FileId?
    requires forall raw <- s.patch.value.files :: raw.value.id != "" ==> !Blank(raw.value.id)
    ensures op.file == s.patch.value.files[i].value.file && op.file.FileId?
    ensures Misses(env, s, actions, OnlyFile(op.file.id), op)
  {
    hide Normalize, KindOf, Workable, Pending, Filter, Apply, Possible, After, SightsOf, FirstShown, ReadsAll, PreviewList, Find,
      NameStays, Filled, ChecksumOf, HasFiles, Misses, AllPreviewable, FileOps, NormalizeItems, NormalizeFile, Blank, Reject,
      Enabled, FilesShaped, NoOwnIds;
    var p, ops := s.patch.value, Pending(s.patch);
    ReadyReads(env, s);
    FileItemAt(p.files, 0, i);
    op := ops[i];
    FileItemAnywhere(p.files[i].value, i, i);
    FileItemIsModify(op);
    var files, st := FilesOf(ops), s.work.store;
    assert op in ops && op.file.id in files;
    var first := Filled(st, files, BEFORE);
    var later := Filled(first, files, AFTER);
    FilledOthers(st, files, BEFORE);
    FilledOthers(first, files, AFTER);
    FilledFiles(st, files, BEFORE, op.file.id);
    FilledFiles(first, files, AFTER, op.file.id);
    WorkablePreviews(env, first, ops);
    AfterChanging(env, s, first, later);
    var u := s.(work := s.work.(store := later), preview := PreviewList(first, ops, []));
    var t := u.(preview := []);
    var drop := RejectAction({}, ShownIds(ops));
    ShownNotBlank(p.files);
    RejectDropsEntries(u, i, first);
    CanReject(u, ShownIds(ops));
    OneAction(env, u, drop);
    Joined(env, s, Changing(first, later), [drop]);
    assert [Sight(first, ops)] + [] == [Sight(first, ops)];
    CalmAtFirst(later, ops);
    actions := Changing(first, later) + [drop];
    InFiles(first, ops, op);
    ChangeIsMissed(env, s, actions, Sight(first, ops), op);
  }

  lemma CanReject(s: Session, ids: set<string>)
    requires forall id <- ids :: !Blank(id)
    ensures Enabled(s, RejectAction({}, ids))
  {
  }

  lemma CalmAtFirst(st: Store, ops: seq<RawOp>)
    ensures Calm(st, ops, [])
  {
    forall id {
      NothingFound(id);
    }
  }

  lemma RawIdNotBlank(raws: seq<Option<RawOp>>, raw: Option<RawOp>)
    requires AllObjects(raws) && NormalizeItems(raws, true, 0).Ok? && raw in raws && raw.value.operationId == "" && raw.value.id != ""
    requires forall o <- FileOps(raws, 0) :: !Blank(o.operationId)
    ensures !Blank(raw.value.id)
  {
    hide Blank, NormalizeItems, NormalizeFile, FileOps;
    var k :| 0 <= k < |raws| && raws[k] == raw;
    FileItemAt(raws, 0, k);
    IdOfItem(raws[k].value, k, FileOps(raws, 0)[k]);
    assert FileOps(raws, 0)[k] in FileOps(raws, 0);
  }

  /** A file item that names a file and has no operation id lets a change of the file be missed. */
  lemma {:induction false} GeneratedIdMisses(env: Env, s: Session, i: nat) returns (actions: seq<Action>, op: RawOp)
    requires Ready(env, s) && s.preview == [] && FilesShaped(s.patch.value) && AllObjects(s.patch.value.files)
    requires i < |s.patch.value.files| && !HasOwnId(s.patch.value.files[i].value)
    requires forall o <- Pending(s.patch) :: !Blank(o.operationId)
    ensures op.file == s.patch.value.files[i].value.file && op.file.FileId?
    ensures Misses(env, s, actions, OnlyFile(op.file.id), op)
  {
    hide ReadsAll, Workable, Normalize, Pending, Blank, Narrows, Misses, KindOf, FilesShaped, FileOps, NormalizeItems, NormalizeFile;
    var prefix := RejectOwned(env, s, i);
    var t := After(env, s, prefix);
    ReadyReads(env, s);
    var files := t.patch.value.files;
    var k :| 0 <= k < |files| && files[k] == s.patch.value.files[i];
    forall raw | raw in files && raw.value.id != "" ensures !Blank(raw.value.id) {
      NoOwnIdOf(files, raw);
      RawIdNotBlank(s.patch.value.files, raw);
    }
    var rest, shown := UnownedIsMissed(env, t, k);
    op := shown;
    MissesLater(env, s, prefix, rest, OnlyFile(op.file.id), op);
    actions := prefix + rest;
  }

  lemma NoOwnIdOf(raws: seq<Option<RawOp>>, raw: Option<RawOp>)
    requires AllObjects(raws) && NoOwnIds(raws) && raw in raws
    ensures raw.Some? && raw.value.operationId == ""
  {
  }
}
