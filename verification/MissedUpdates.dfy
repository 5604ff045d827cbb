// The other half of the result about lost updates: where operations share an id without keeping to one file, or a file item
// has no operation id, some run ends in an apply that overwrites a change
// (backend/services/agent/code_workspace.py, preview_patch_payload, reject_patch_payload and apply_patch_payload).
module MissedUpdates {
  import opened CodeSessions
  import opened EditScripts
  import opened LostUpdates
  import opened PatchPayload
  import opened PatchSelection
  import opened SessionRuns
  import opened SharedIds
  import opened ShownEntries
  import opened Strings
  import opened Sublists
  import opened Workspace
  import opened WorkspacePreviews
  import opened Wrappers

  /** The run is possible, and then an apply that allows no conflicts goes through and takes an operation whose file has
      another checksum than the one the operation was first shown with. */
  ghost predicate Misses(env: Env, s: Session, actions: seq<Action>, sel: Selection, op: RawOp) {
    && Possible(env, s, actions) && SamePatch(actions) && Enabled(After(env, s, actions), ApplyAction(sel, false))
    && var t := After(env, s, actions);
       var r := Apply(env, t, sel, false).1;
       && r.Ok? && op in r.value && OnFile(op) && op.file.id in t.work.store.records
       && FirstShown(Looks(env, s, actions), op.operationId, op.file.id).Some?
       && FirstShown(Looks(env, s, actions), op.operationId, op.file.id) != ChecksumOf(t.work.store, op.file.id)
  }

  // ----- Runs in parts -----

  lemma {:induction false} Joined(env: Env, s: Session, a: seq<Action>, b: seq<Action>)
    ensures After(env, s, a + b) == After(env, After(env, s, a), b)
    ensures Possible(env, s, a + b) <==> Possible(env, s, a) && Possible(env, After(env, s, a), b)
    ensures SightsOf(env, s, a + b) == SightsOf(env, s, a) + SightsOf(env, After(env, s, a), b)
    decreases |a|
  {
    hide Next, Sights, Enabled;
    if a == [] {
      assert a + b == b;
      assert [] + SightsOf(env, s, b) == SightsOf(env, s, b);
    } else {
      assert (a + b)[1..] == a[1..] + b;
      Joined(env, Next(env, s, a[0]), a[1..], b);
      Associates(Sights(env, s, a[0]), SightsOf(env, Next(env, s, a[0]), a[1..]), SightsOf(env, After(env, s, a), b));
    }
  }

  lemma OneAction(env: Env, s: Session, a: Action)
    ensures After(env, s, [a]) == Next(env, s, a)
    ensures Possible(env, s, [a]) <==> Enabled(s, a)
    ensures SightsOf(env, s, [a]) == Sights(env, s, a)
  {
    hide Next, Sights, Enabled;
    assert [a][1..] == [];
    assert Sights(env, s, a) + [] == Sights(env, s, a);
  }

  // ----- Files that can be worked on -----

  const NAME := "f"

  /** The files, active and with the same object. */
  function Filled(st: Store, files: set<nat>, text: Lines): Store {
    st.(records := st.records + map id | id in files :: Record(NAME, Active, SizeOf(text), Sha256(text)),
        objects := st.objects + map id | id in files :: text)
  }

  /** Every object can be read under every name. */
  ghost predicate ReadsAll(env: Env) {
    forall name: string, text: Lines :: env.read(name, text).Some?
  }

  /** The operation can be previewed, and applied if it is on a file. */
  predicate Workable(op: RawOp) {
    Settled(op) && !op.file.BadFile? && (KindOf(op) == Folder ==> op.filename != "")
  }

  function FilesOf(ops: seq<RawOp>): set<nat> {
    set op <- ops | op.file.FileId? :: op.file.id
  }

  /** The files are there, with objects. */
  ghost predicate HasFiles(st: Store, files: set<nat>) {
    forall id <- files :: id in st.records && id in st.objects
  }

  predicate NameStays(st: Store, id: nat) {
    id in st.records && SafeFilename(st.records[id].filename) == Ok(st.records[id].filename)
  }

  lemma PlainName()
    ensures SafeFilename(NAME) == Ok(NAME)
  {
    BaseNameFixed(NAME);
    assert |"/" + NAME + "/"| == 3;
  }

  lemma WorkablePreviews(env: Env, st: Store, ops: seq<RawOp>)
    requires ReadsAll(env) && HasFiles(st, FilesOf(ops)) && forall op <- ops :: Workable(op)
    ensures AllPreviewable(env, st, ops)
  {
    hide KindOf, SafeFilename;
    forall i | 0 <= i < |ops| ensures Previewable(env, st, ops[i]) {
      assert Workable(ops[i]);
      if ops[i].file.FileId? {
        assert ops[i].file.id in FilesOf(ops);
      }
    }
  }

  lemma SettledTarget(st: Store, op: RawOp, id: nat)
    requires Settled(op) && op.file == FileId(id) && NameStays(st, id)
    ensures TargetName(st, op).Ok? && SafeFilename(TargetName(st, op).value) == TargetName(st, op)
  {
    hide SafeFilename;
  }

  lemma AppliesToFile(env: Env, st: Store, op: RawOp, id: nat)
    requires ReadsAll(env) && Workable(op) && op.file == FileId(id) && NameStays(st, id) && id in st.objects
    ensures Appliable(env, st, op)
    ensures var st1 := Effect(env, st, op).0;
      NameStays(st1, id) && st.objects.Keys <= st1.objects.Keys
  {
    hide SafeFilename, KindOf, NewText, SizeOf, TargetName, OldText;
    SettledTarget(st, op, id);
  }

  lemma {:induction false} AllApplyToFile(env: Env, st: Store, ops: seq<RawOp>, id: nat)
    requires ReadsAll(env) && (forall op <- ops :: Workable(op) && op.file == FileId(id)) && NameStays(st, id) && id in st.objects
    ensures var p := ApplyAll(env, st, ops); p.ok && st.objects.Keys <= p.store.objects.Keys
    decreases |ops|
  {
    hide Workable, NameStays, Effect, Appliable, ReadsAll;
    if ops != [] {
      assert ops[0] in ops;
      AppliesToFile(env, st, ops[0], id);
      AllApplyToFile(env, Effect(env, st, ops[0]).0, ops[1..], id);
    }
  }

  // ----- An apply that goes through -----

  /** No operation would be flagged. */
  ghost predicate Calm(st: Store, ops: seq<RawOp>, items: seq<PreviewItem>) {
    forall op <- ops :: OnFile(op) ==> Known(BaseOf(items, op.operationId), ChecksumOf(st, op.file.id)) == ChecksumOf(st, op.file.id)
  }

  lemma CalmTouchesNothing(st: Store, ops: seq<RawOp>, items: seq<PreviewItem>, taken: seq<RawOp>)
    requires Calm(st, ops, items)
    ensures !ConflictTouches(PreviewList(st, ops, items), taken)
  {
    hide KindOf, PreviewList, Find;
    forall item | item in PreviewList(st, ops, items) ensures !item.conflict {
      var op := ItemHasOp(st, ops, items, item);
      BaseOfEntry(st, op, items);
    }
  }

  lemma OnlyFileIds(ops: seq<RawOp>, file: nat, whole: RawOp -> bool)
    ensures forall op <- Applied(ops, OnlyFile(file)) :: op in ops && op.file == FileId(file)
    ensures forall op <- Left(ops, OnlyFile(file), whole) :: op in ops
  {
    hide Filter;
    forall op | op in Applied(ops, OnlyFile(file)) ensures op in ops && op.file == FileId(file) {
      FilterMember(ops, (o: RawOp) => IsApplied(o, OnlyFile(file)), op);
    }
    forall op | op in Left(ops, OnlyFile(file), whole) ensures op in ops {
      FilterMember(ops, (o: RawOp) => IsLeft(o, OnlyFile(file), whole), op);
    }
  }

  lemma ApplyGoesThrough(env: Env, s: Session, sel: Selection, shown: Session)
    requires s.patch.Some? && Normalize(s.patch.value).Ok?
    requires var own, ops := EnvOf(env, s, sel), Pending(s.patch);
      && !SelectionFails(own, s.work.store, ops, sel) && Applied(ops, sel) != []
      && Previewed(own, s) == Ok(shown) && !ConflictTouches(shown.preview, Applied(ops, sel))
      && Finish(own, shown, Applied(ops, sel), Left(ops, sel, Whole(own, s.work.store))).1.Ok?
    ensures Apply(env, s, sel, false).1 == Ok(Applied(Pending(s.patch), sel))
  {
    hide Previewed, Normalize, SelectionFails, Applied, Left, Whole, ConflictTouches, ApplyAll, Remainder;
  }

  lemma FinishGoesThrough(env: Env, s: Session, taken: seq<RawOp>, left: seq<RawOp>)
    requires ReadsAll(env) && ApplyAll(env, s.work.store, taken).ok
    requires forall op <- left :: Workable(op) && Normal(op)
    requires HasFiles(ApplyAll(env, s.work.store, taken).store, FilesOf(left))
    ensures Finish(env, s, taken, left).1.Ok?
  {
    hide ApplyAll, PreviewList, Normalize, Push, Normal, KindOf, AllPreviewable, HasFiles;
    if left != [] {
      RemainderReads(left);
      WorkablePreviews(env, ApplyAll(env, s.work.store, taken).store, left);
    }
  }

  lemma PreviewGoesThrough(env: Env, s: Session)
    requires s.patch.Some? && Normalize(s.patch.value).Ok? && AllPreviewable(env, s.work.store, Pending(s.patch))
    ensures Previewed(env, s) == Ok(s.(preview := PreviewList(s.work.store, Pending(s.patch), s.preview)))
  {
    hide Normalize, PreviewList, AllPreviewable;
  }

  /** A session whose patch can be worked on. */
  ghost predicate Ready(env: Env, s: Session) {
    && ReadsAll(env) && s.patch.Some? && Normalize(s.patch.value).Ok? && forall op <- Pending(s.patch) :: Workable(op)
  }

  /** With nothing flagged, all that is on a file can be applied. */
  lemma TakesFile(env: Env, s: Session, op: RawOp)
    requires Ready(env, s) && op in Pending(s.patch) && OnFile(op)
    requires HasFiles(s.work.store, FilesOf(Pending(s.patch))) && NameStays(s.work.store, op.file.id)
    requires Calm(s.work.store, Pending(s.patch), s.preview)
    ensures var r := Apply(env, s, OnlyFile(op.file.id), false).1; r.Ok? && op in r.value
  {
    hide Normalize, KindOf, ApplyAll, Workable, HasFiles, NameStays, Pending, PreviewList, ConflictTouches, Finish, Filter, Whole,
      Calm, Normal, AllPreviewable, ReadsAll;
    var st, ops, f, sel := s.work.store, Pending(s.patch), op.file.id, OnlyFile(op.file.id);
    var own := EnvOf(env, s, sel);
    var whole := Whole(own, st);
    var taken, left := Applied(ops, sel), Left(ops, sel, whole);
    SameReader(env, own);
    OnlyFileTakes(ops, op);
    OnlyFileIds(ops, f, whole);
    PendingNormal(s.patch);
    WorkablePreviews(own, st, ops);
    PreviewGoesThrough(own, s);
    CalmTouchesNothing(st, ops, s.preview, taken);
    InFiles(st, ops, op);
    AllApplyToFile(own, st, taken, f);
    FilesStay(own, st, taken, ops, left);
    var shown := s.(preview := PreviewList(st, ops, s.preview));
    FinishGoesThrough(own, shown, taken, left);
    NoHunksSelected(own, st, ops, sel);
    ApplyGoesThrough(env, s, sel, shown);
  }

  lemma SameReader(env: Env, own: Env)
    requires ReadsAll(env) && own.read == env.read
    ensures ReadsAll(own)
  {
  }

  lemma InFiles(st: Store, ops: seq<RawOp>, op: RawOp)
    requires HasFiles(st, FilesOf(ops)) && op in ops && op.file.FileId?
    ensures op.file.id in st.records && op.file.id in st.objects
  {
    assert op.file.id in FilesOf(ops);
  }

  lemma FilesStay(env: Env, st: Store, taken: seq<RawOp>, ops: seq<RawOp>, left: seq<RawOp>)
    requires HasFiles(st, FilesOf(ops)) && (forall op <- left :: op in ops)
    requires st.objects.Keys <= ApplyAll(env, st, taken).store.objects.Keys
    ensures HasFiles(ApplyAll(env, st, taken).store, FilesOf(left))
  {
    hide ApplyAll;
    ApplyAllKeepsKeys(env, st, taken);
    assert FilesOf(left) <= FilesOf(ops);
  }

  lemma NoHunksSelected(env: Env, st: Store, ops: seq<RawOp>, sel: Selection)
    requires sel.hunks == {}
    ensures !SelectionFails(env, st, ops, sel)
  {
    hide KindOf, Readable;
  }

  // ----- A change between two previews -----

  lemma FilledFiles(st: Store, files: set<nat>, text: Lines, id: nat)
    requires id in files
    ensures var st1 := Filled(st, files, text);
      id in st1.records && id in st1.objects && ChecksumOf(st1, id) == Some(Sha256(text)) && NameStays(st1, id)
  {
    hide SafeFilename, SizeOf;
    PlainName();
  }

  lemma FilledOthers(st: Store, files: set<nat>, text: Lines)
    ensures st.records.Keys <= Filled(st, files, text).records.Keys && st.objects.Keys <= Filled(st, files, text).objects.Keys
    ensures forall id :: id !in files ==> ChecksumOf(Filled(st, files, text), id) == ChecksumOf(st, id)
    ensures HasFiles(Filled(st, files, text), files)
  {
    hide SizeOf;
  }

  const BEFORE: Lines := ["a"]
  const AFTER: Lines := ["b"]

  /** One file holds one text, the others another. */
  function FirstFiles(st: Store, files: set<nat>, file: nat): Store {
    Filled(Filled(st, files, AFTER), {file}, BEFORE)
  }

  lemma FirstFilesHold(st: Store, files: set<nat>, file: nat)
    requires file in files
    ensures var first := FirstFiles(st, files, file);
      && st.records.Keys <= first.records.Keys && HasFiles(first, files)
      && ChecksumOf(first, file) == Some(Sha256(BEFORE))
      && forall id <- files :: id != file ==> ChecksumOf(first, id) == Some(Sha256(AFTER))
  {
    hide Filled, ChecksumOf, NameStays;
    var others := Filled(st, files, AFTER);
    FilledOthers(st, files, AFTER);
    FilledOthers(others, {file}, BEFORE);
    FilledFiles(others, {file}, BEFORE, file);
    forall id | id in files ensures ChecksumOf(others, id) == Some(Sha256(AFTER)) {
      FilledFiles(st, files, AFTER, id);
    }
  }

  function Changing(first: Store, later: Store): seq<Action> {
    [ChangeAction(first), PreviewAction, ChangeAction(later)]
  }

  lemma AfterChanging(env: Env, s: Session, first: Store, later: Store)
    requires s.patch.Some? && Normalize(s.patch.value).Ok? && AllPreviewable(env, first, Pending(s.patch))
    requires s.work.store.records.Keys <= first.records.Keys <= later.records.Keys
    ensures Possible(env, s, Changing(first, later))
    ensures After(env, s, Changing(first, later)) ==
      s.(work := s.work.(store := later), preview := PreviewList(first, Pending(s.patch), s.preview))
    ensures SightsOf(env, s, Changing(first, later)) == [Sight(first, Pending(s.patch))]
  {
    hide Normalize, PreviewList, AllPreviewable, Previewed, Pending;
    var s1 := s.(work := s.work.(store := first));
    var s2 := s1.(preview := PreviewList(first, Pending(s.patch), s.preview));
    PreviewGoesThrough(env, s1);
    OneAction(env, s, ChangeAction(first));
    OneAction(env, s1, PreviewAction);
    OneAction(env, s2, ChangeAction(later));
    Joined(env, s1, [PreviewAction], [ChangeAction(later)]);
    Joined(env, s, [ChangeAction(first)], [PreviewAction] + [ChangeAction(later)]);
    assert [ChangeAction(first)] + ([PreviewAction] + [ChangeAction(later)]) == Changing(first, later);
    assert [] + ([Sight(first, Pending(s.patch))] + []) == [Sight(first, Pending(s.patch))];
  }

  /** Shown once, and applied without a flag when its file has another checksum. */
  lemma ChangeIsMissed(env: Env, s: Session, actions: seq<Action>, sight: Sight, op: RawOp)
    requires Possible(env, s, actions) && SamePatch(actions) && SightsOf(env, s, actions) == [sight]
    requires op in sight.ops && OnFile(op) && op.file.id in sight.store.records
    requires var t := After(env, s, actions);
      && Ready(env, t) && op in Pending(t.patch) && HasFiles(t.work.store, FilesOf(Pending(t.patch)))
      && NameStays(t.work.store, op.file.id) && Calm(t.work.store, Pending(t.patch), t.preview)
      && ChecksumOf(sight.store, op.file.id) != ChecksumOf(t.work.store, op.file.id)
    ensures Misses(env, s, actions, OnlyFile(op.file.id), op)
  {
    hide Normalize, KindOf, Workable, HasFiles, NameStays, Pending, Calm, Filter, Apply, Possible, After, SightsOf, FirstShown, ReadsAll,
      Ready, ChecksumOf;
    var t, id := After(env, s, actions), op.operationId;
    TakesFile(env, t, op);
    InFiles(t.work.store, Pending(t.patch), op);
    FirstShownOne(sight.store, sight.ops, id, op.file.id);
    FirstShownAppend([sight], [Sight(t.work.store, Pending(t.patch))], id, op.file.id);
    HasChecksum(sight.store, op.file.id);
    assert ShownWith(sight.store, sight.ops, id, op.file.id) == ChecksumOf(sight.store, op.file.id);
  }

  lemma HasChecksum(st: Store, id: nat)
    requires id in st.records
    ensures ChecksumOf(st, id).Some?
  {
  }

  // ----- The last operation with an entry -----

  predicate MakesEntry(op: RawOp) {
    Targeted(op) ==> op.file.FileId?
  }

  /** The operations with the id that can have entries. */
  function Makers(ops: seq<RawOp>, id: string): seq<RawOp> {
    Filter(ops, (op: RawOp) => op.operationId == id && MakesEntry(op))
  }

  lemma MakersSnoc(ops: seq<RawOp>, op: RawOp, id: string)
    ensures Makers(ops + [op], id) == Makers(ops, id) + if op.operationId == id && MakesEntry(op) then [op] else []
  {
    hide Filter, MakesEntry;
    var all := ops + [op];
    FilterStep(all, (o: RawOp) => o.operationId == id && MakesEntry(o), |ops|);
    assert all[..|ops|] == ops && all[..|ops| + 1] == all;
  }

  lemma MakerHasEntry(st: Store, op: RawOp, previous: seq<PreviewItem>)
    requires op.file.FileId? ==> op.file.id in st.records
    ensures MakesEntry(op) <==> PreviewOf(st, op, previous).Some?
  {
    hide KindOf, Find;
  }

  lemma {:induction false} LastMakerFound(st: Store, ops: seq<RawOp>, previous: seq<PreviewItem>, id: string)
    requires forall op <- ops :: op.file.FileId? ==> op.file.id in st.records
    ensures var makers := Makers(ops, id);
      Find(PreviewList(st, ops, previous), id) ==
        if makers == [] then None else PreviewOf(st, makers[|makers| - 1], previous)
  {
    hide Find, PreviewOf, MakesEntry, Makers;
    if ops == [] {
      NothingFound(id);
      NoMakers(id);
    } else {
      var n := |ops| - 1;
      var front, last := ops[..n], ops[n];
      assert ops == front + [last];
      LastMakerFound(st, front, previous, id);
      MakersSnoc(front, last, id);
      MakerHasEntry(st, last, previous);
      EntryHasId(st, last, previous);
      var items := PreviewList(st, front, previous);
      if PreviewOf(st, last, previous).Some? {
        FindAppended(items, PreviewOf(st, last, previous).value, id);
      } else {
        assert items + [] == items;
      }
      assert Makers(front, id) + [] == Makers(front, id);
    }
  }

  lemma NoMakers(id: string)
    ensures Makers([], id) == []
  {
  }

  lemma MakersMember(ops: seq<RawOp>, id: string, op: RawOp)
    ensures op in Makers(ops, id) <==> op in ops && op.operationId == id && MakesEntry(op)
  {
    FilterMember(ops, (o: RawOp) => o.operationId == id && MakesEntry(o), op);
  }

  /** The last entry under the operation's id is none of its file. */
  predicate EndsElsewhere(ops: seq<RawOp>, op: RawOp) {
    var makers := Makers(ops, op.operationId);
    OnFile(op) && makers != [] && var last := makers[|makers| - 1]; !OnFile(last) || last.file != op.file
  }

  /** All operations on files have the id. */
  predicate OnlyWith(ops: seq<RawOp>, id: string) {
    forall op <- ops :: OnFile(op) ==> op.operationId == id
  }

  lemma ElsewhereBase(st: Store, ops: seq<RawOp>, op: RawOp)
    requires op in ops && EndsElsewhere(ops, op) && (forall o <- ops :: !o.file.BadFile?)
    requires HasFiles(st, FilesOf(ops))
    requires forall id <- FilesOf(ops) :: id != op.file.id ==> ChecksumOf(st, id) == Some(Sha256(AFTER))
    ensures BaseOf(PreviewList(st, ops, []), op.operationId) in {None, Some(Sha256(AFTER))}
  {
    hide Find, PreviewOf, Makers, KindOf, ChecksumOf, PreviewList;
    var id, makers := op.operationId, Makers(ops, op.operationId);
    var last := makers[|makers| - 1];
    MakersMember(ops, id, last);
    forall o | o in ops && o.file.FileId? ensures o.file.id in st.records {
      InFiles(st, ops, o);
    }
    LastMakerFound(st, ops, [], id);
    BaseOfEntry(st, last, []);
    NothingFound(id);
    if last.file.FileId? {
      assert last.file.id in FilesOf(ops);
    }
  }

  /** With only one id left on files, and its last entry none of the operation's file, a change of the file is missed. */
  lemma ElsewhereIsMissed(env: Env, s: Session, op: RawOp) returns (actions: seq<Action>)
    requires Ready(env, s) && s.preview == [] && op in Pending(s.patch)
    requires EndsElsewhere(Pending(s.patch), op) && OnlyWith(Pending(s.patch), op.operationId)
    ensures Misses(env, s, actions, OnlyFile(op.file.id), op)
  {
    hide Normalize, KindOf, Workable, Pending, Filter, Apply, Possible, After, SightsOf, FirstShown, ReadsAll, PreviewList, Find,
      NameStays, Filled, Makers, ChecksumOf, HasFiles, Misses, AllPreviewable;
    var ops, f := Pending(s.patch), op.file.id;
    var files := FilesOf(ops);
    var first := FirstFiles(s.work.store, files, f);
    var later := Filled(first, files, AFTER);
    FirstFilesHold(s.work.store, files, f);
    FilledOthers(first, files, AFTER);
    FilledFiles(first, files, AFTER, f);
    WorkablePreviews(env, first, ops);
    AfterChanging(env, s, first, later);
    var t := s.(work := s.work.(store := later), preview := PreviewList(first, ops, s.preview));
    WorkableNotBad(ops);
    ElsewhereBase(first, ops, op);
    forall o | o in ops && OnFile(o)
      ensures Known(BaseOf(t.preview, o.operationId), ChecksumOf(later, o.file.id)) == ChecksumOf(later, o.file.id)
    {
      FilledFiles(first, files, AFTER, o.file.id);
    }
    actions := Changing(first, later);
    InFiles(first, ops, op);
    ChangeIsMissed(env, s, actions, Sight(first, ops), op);
  }

  lemma WorkableNotBad(ops: seq<RawOp>)
    requires forall op <- ops :: Workable(op)
    ensures forall op <- ops :: !op.file.BadFile?
  {
  }

  // ----- Getting rid of the other ids -----

  function OtherIds(ops: seq<RawOp>, id: string): set<string> {
    set op <- ops | op.operationId != id :: op.operationId
  }

  function WithId(ops: seq<RawOp>, id: string): seq<RawOp> {
    Filter(ops, (op: RawOp) => op.operationId == id)
  }

  /** Without files, rejecting the other ids leaves the operations with this one. */
  lemma OthersUnpicked(ops: seq<RawOp>, id: string)
    ensures Unpicked(ops, {}, OtherIds(ops, id)) == WithId(ops, id)
    ensures OtherIds(ops, id) == {} ==> WithId(ops, id) == ops
  {
    hide Filter;
    var others := OtherIds(ops, id);
    forall op | op in ops ensures !Picked(op, {}, others) <==> op.operationId == id {
      assert op.operationId != id ==> op.operationId in others;
    }
    SameFilter(ops, (op: RawOp) => !Picked(op, {}, others), (op: RawOp) => op.operationId == id);
    if others == {} {
      FilterAll(ops, (op: RawOp) => op.operationId == id);
    }
  }

  /** The prefix changes nothing but the patch, and nothing is previewed in it. */
  ghost predicate Narrows(env: Env, s: Session, prefix: seq<Action>) {
    && SamePatch(prefix) && Possible(env, s, prefix) && SightsOf(env, s, prefix) == []
    && After(env, s, prefix) == s.(patch := After(env, s, prefix).patch)
  }

  lemma NoAction(env: Env, s: Session)
    ensures Narrows(env, s, [])
  {
  }

  lemma OneReject(env: Env, s: Session, ids: set<string>)
    requires s.preview == [] && (forall id <- ids :: !Blank(id))
    requires Reject(s, {}, ids).Ok? && Reject(s, {}, ids).value.0 == s.(patch := Reject(s, {}, ids).value.0.patch)
    ensures var prefix := [RejectAction({}, ids)];
      Narrows(env, s, prefix) && After(env, s, prefix) == Reject(s, {}, ids).value.0
  {
    hide Reject, Blank;
    OneAction(env, s, RejectAction({}, ids));
  }

  lemma NothingKept(files: set<nat>, ids: set<string>)
    ensures KeptItems([], files, ids) == []
  {
  }

  lemma RejectOfOps(s: Session, ids: set<string>)
    requires s.patch.Some? && !FilesShaped(s.patch.value) && Normalize(s.patch.value).Ok? && s.preview == [] && ids != {}
    ensures var r := Reject(s, {}, ids); r.Ok? && r.value.0 == s.(patch := Remainder(Unpicked(Pending(s.patch), {}, ids)))
  {
    hide Normalize, Filter, KeptItems, Remainder;
    NothingKept({}, ids);
  }

  lemma NonBlankOthers(ops: seq<RawOp>, id: string)
    requires forall op <- ops :: !Blank(op.operationId)
    ensures forall other <- OtherIds(ops, id) :: !Blank(other)
  {
    hide Blank;
  }

  lemma WithIdMember(ops: seq<RawOp>, id: string, op: RawOp)
    ensures op in WithId(ops, id) <==> op in ops && op.operationId == id
  {
    FilterMember(ops, (o: RawOp) => o.operationId == id, op);
  }

  lemma MakersWithId(ops: seq<RawOp>, id: string)
    ensures Makers(WithId(ops, id), id) == Makers(ops, id)
  {
    hide MakesEntry;
    FilterTwice(ops, (op: RawOp) => op.operationId == id, (op: RawOp) => op.operationId == id && MakesEntry(op));
  }

  lemma ReadsBackAfter(env: Env, s: Session, ops: seq<RawOp>)
    requires ReadsAll(env) && ops != [] && forall op <- ops :: Workable(op) && Normal(op)
    ensures var t := s.(patch := Remainder(ops)); Ready(env, t) && Pending(t.patch) == ops && t.patch.Some?
  {
    hide Normalize, Normal, KindOf;
    RemainderReads(ops);
  }

  /** From a patch of operations all other ids can be rejected. */
  lemma NarrowOps(env: Env, s: Session, op: RawOp) returns (prefix: seq<Action>)
    requires Ready(env, s) && s.preview == [] && op in Pending(s.patch) && !FilesShaped(s.patch.value)
    requires forall o <- Pending(s.patch) :: !Blank(o.operationId)
    ensures Narrows(env, s, prefix)
    ensures var t := After(env, s, prefix);
      && Ready(env, t) && t.preview == [] && Pending(t.patch) == WithId(Pending(s.patch), op.operationId)
      && op in Pending(t.patch) && OnlyWith(Pending(t.patch), op.operationId)
  {
    hide Normalize, KindOf, Workable, Normal, Pending, Filter, Blank, Reject, Remainder, Narrows, Unpicked, WithId, OtherIds;
    var ops, id := Pending(s.patch), op.operationId;
    var others := OtherIds(ops, id);
    OthersUnpicked(ops, id);
    forall o {
      WithIdMember(ops, id, o);
    }
    if others == {} {
      prefix := [];
      NoAction(env, s);
    } else {
      prefix := [RejectAction({}, others)];
      NonBlankOthers(ops, id);
      PendingNormal(s.patch);
      RejectOfOps(s, others);
      ReadsBackAfter(env, s, WithId(ops, id));
      OneReject(env, s, others);
    }
  }

  lemma MissesLater(env: Env, s: Session, prefix: seq<Action>, rest: seq<Action>, sel: Selection, op: RawOp)
    requires Narrows(env, s, prefix) && Misses(env, After(env, s, prefix), rest, sel, op)
    ensures Misses(env, s, prefix + rest, sel, op)
  {
    hide After, Possible, SightsOf, Apply, KindOf, FirstShown, Enabled;
    Joined(env, s, prefix, rest);
    assert [] + SightsOf(env, After(env, s, prefix), rest) == SightsOf(env, After(env, s, prefix), rest);
  }

  /** In a patch of operations, an id whose last entry is none of the operation's file lets a change be missed. */
  lemma {:induction false} SharedIdMisses(env: Env, s: Session, op: RawOp) returns (actions: seq<Action>)
    requires Ready(env, s) && s.preview == [] && op in Pending(s.patch) && !FilesShaped(s.patch.value)
    requires (forall o <- Pending(s.patch) :: !Blank(o.operationId)) && EndsElsewhere(Pending(s.patch), op)
    ensures Misses(env, s, actions, OnlyFile(op.file.id), op)
  {
    hide Ready, Pending, Blank, Narrows, OnlyWith, Misses, KindOf, Makers;
    var prefix := NarrowOps(env, s, op);
    MakersWithId(Pending(s.patch), op.operationId);
    var rest := ElsewhereIsMissed(env, After(env, s, prefix), op);
    MissesLater(env, s, prefix, rest, OnlyFile(op.file.id), op);
    actions := prefix + rest;
  }
}
