// What the user was shown of an operation first, and the preview entries that remember it over any run of one code session
// (backend/services/agent/code_workspace.py, preview_patch_payload, apply_patch_payload and reject_patch_payload together).
module ShownEntries {
  import opened CodeSessions
  import opened PatchPayload
  import opened PatchSelection
  import opened SessionRuns
  import opened SharedIds
  import opened Sublists
  import opened Workspace
  import opened WorkspaceFiles
  import opened WorkspacePreviews
  import opened Wrappers

  // ----- What the user was shown -----

  /** One preview: the files and the operations it was made of. */
  datatype Sight = Sight(store: Store, ops: seq<RawOp>)

  /** The checksum of a file when an operation with the id was shown on it. */
  function ShownWith(st: Store, ops: seq<RawOp>, id: string, file: nat): Option<Checksum> {
    if (exists op <- ops :: OnFile(op) && op.operationId == id && op.file.id == file) then ChecksumOf(st, file) else None
  }

  /** The one it was first shown with. */
  function FirstShown(sights: seq<Sight>, id: string, file: nat): Option<Checksum> {
    if sights == [] then None
    else
      var now := ShownWith(sights[0].store, sights[0].ops, id, file);
      if now.Some? then now else FirstShown(sights[1..], id, file)
  }

  /** The previews an action makes: one of a new patch, one before an apply looks for conflicts, one of what stays pending. */
  function Sights(env: Env, s: Session, a: Action): seq<Sight> {
    match a
    case GenerateAction(p) =>
      if Previewed(env, s.(patch := Some(p))).Ok? then [Sight(s.work.store, Pending(Some(p)))] else []
    case PreviewAction => if Previewed(env, s).Ok? then [Sight(s.work.store, Pending(s.patch))] else []
    case ApplyAction(sel, allow) =>
      (var (s', r) := Apply(env, s, sel, allow);
       var before := !allow && (r.Ok? || r.error in {Conflict, ApplyFailed});
       (if before then [Sight(s.work.store, Pending(s.patch))] else []) +
       (if r.Ok? && s'.patch.Some? then [Sight(s'.work.store, Pending(s'.patch))] else []))
    case _ => []
  }

  function SightsOf(env: Env, s: Session, actions: seq<Action>): seq<Sight>
    decreases |actions|
  {
    if actions == [] then [] else Sights(env, s, actions[0]) + SightsOf(env, Next(env, s, actions[0]), actions[1..])
  }

  /** Records are marked deleted, never removed, whoever changes the files. */
  predicate Possible(env: Env, s: Session, actions: seq<Action>)
    decreases |actions|
  {
    actions != [] ==> Enabled(s, actions[0]) && Possible(env, Next(env, s, actions[0]), actions[1..])
  }

  // ----- Operations and their entries -----

  /** A list of file items that can be read: those that name a file have an operation id of their own, or there is an item
      that is no object, so that no part of the list can be rejected. */
  ghost predicate OwnIds(patch: Option<Payload>) {
    patch.Some? && FilesShaped(patch.value) ==>
      && Normalize(patch.value).Ok?
      && (AllObjects(patch.value.files) ==>
            forall i :: 0 <= i < |patch.value.files| ==> HasOwnId(patch.value.files[i].value))
  }

  predicate HasOwnId(raw: RawOp) {
    raw.file.FileId? ==> raw.operationId != ""
  }

  predicate AllObjects(raws: seq<Option<RawOp>>) {
    forall i :: 0 <= i < |raws| ==> raws[i].Some?
  }

  /** The entries under the operation's id keep the checksum its file was first shown with. */
  ghost predicate Entry(st: Store, op: RawOp, items: seq<PreviewItem>, sights: seq<Sight>)
    requires OnFile(op)
  {
    var first := FirstShown(sights, op.operationId, op.file.id);
    && BaseOf(items, op.operationId) == first
    && (first.Some? ==> op.file.id in st.records)
    && forall item <- items :: item.operationId == op.operationId && item.file.Some? ==> item.file == Some(op.file.id)
  }

  ghost predicate Entries(st: Store, ops: seq<RawOp>, items: seq<PreviewItem>, sights: seq<Sight>) {
    Shielded(ops) && forall op <- ops :: OnFile(op) ==> Entry(st, op, items, sights)
  }

  ghost predicate Follows(s: Session, sights: seq<Sight>) {
    OwnIds(s.patch) && Entries(s.work.store, Pending(s.patch), s.preview, sights)
  }

  lemma {:induction false} FirstShownAppend(a: seq<Sight>, b: seq<Sight>, id: string, file: nat)
    ensures FirstShown(a + b, id, file) == Known(FirstShown(a, id, file), FirstShown(b, id, file))
  {
    hide ShownWith;
    if a == [] {
      assert a + b == b;
    } else {
      assert (a + b)[1..] == a[1..] + b;
      FirstShownAppend(a[1..], b, id, file);
    }
  }

  lemma FirstShownOne(st: Store, ops: seq<RawOp>, id: string, file: nat)
    ensures FirstShown([Sight(st, ops)], id, file) == ShownWith(st, ops, id, file)
  {
    hide ShownWith;
    var one := [Sight(st, ops)];
    assert one[1..] == [];
  }

  lemma NextShown(sights: seq<Sight>, st: Store, ops: seq<RawOp>, op: RawOp)
    requires op in ops && OnFile(op)
    ensures FirstShown(sights + [Sight(st, ops)], op.operationId, op.file.id) ==
      Known(FirstShown(sights, op.operationId, op.file.id), ChecksumOf(st, op.file.id))
  {
    hide FirstShown, ChecksumOf, KindOf;
    FirstShownAppend(sights, [Sight(st, ops)], op.operationId, op.file.id);
    FirstShownOne(st, ops, op.operationId, op.file.id);
  }

  // ----- A preview -----

  lemma PreviewEntry(st: Store, ops: seq<RawOp>, items: seq<PreviewItem>, sights: seq<Sight>, op: RawOp)
    requires Entries(st, ops, items, sights) && op in ops && OnFile(op)
    ensures Entry(st, op, PreviewList(st, ops, items), sights + [Sight(st, ops)])
  {
    hide FirstShown, PreviewList, Shielded, BaseOf, KindOf;
    var shown := PreviewList(st, ops, items);
    assert Entry(st, op, items, sights);
    NextShown(sights, st, ops, op);
    BaseIsKept(st, ops, items, op);
    forall item | item in shown && item.operationId == op.operationId && item.file.Some? ensures item.file == Some(op.file.id) {
      EntriesNameFile(st, ops, items, op, item);
    }
  }

  lemma PreviewEntries(st: Store, ops: seq<RawOp>, items: seq<PreviewItem>, sights: seq<Sight>)
    requires Entries(st, ops, items, sights)
    ensures Entries(st, ops, PreviewList(st, ops, items), sights + [Sight(st, ops)])
  {
    hide Entry, PreviewList, Shielded, OnFile;
    forall op | op in ops && OnFile(op)
      ensures Entry(st, op, PreviewList(st, ops, items), sights + [Sight(st, ops)])
    {
      PreviewEntry(st, ops, items, sights, op);
    }
  }

  lemma NoEntries(st: Store, items: seq<PreviewItem>, sights: seq<Sight>)
    ensures Entries(st, [], items, sights)
  {
  }

  lemma PreviewFollows(env: Env, s: Session, sights: seq<Sight>)
    requires Follows(s, sights) && Previewed(env, s).Ok?
    ensures Follows(Previewed(env, s).value, sights + [Sight(s.work.store, Pending(s.patch))])
  {
    hide Entries, PreviewList, Normalize, OwnIds, AllPreviewable;
    if s.patch.None? {
      NoEntries(s.work.store, s.preview, sights + [Sight(s.work.store, [])]);
    } else {
      PreviewEntries(s.work.store, Pending(s.patch), s.preview, sights);
    }
  }

  // ----- A part of the patch -----

  /** The entry found under the id of `a` is still there. */
  ghost predicate StillListed(a: RawOp, items: seq<PreviewItem>, kept: seq<PreviewItem>) {
    Find(kept, a.operationId) == Find(items, a.operationId)
  }

  lemma EntryStays(st: Store, later: Store, b: RawOp, a: RawOp, items: seq<PreviewItem>, kept: seq<PreviewItem>, sights: seq<Sight>)
    requires OnFile(b) && Entry(st, b, items, sights) && SameTargets(b, a) && st.records.Keys <= later.records.Keys
    requires (forall item <- kept :: item in items) && StillListed(a, items, kept)
    ensures OnFile(a) && Entry(later, a, kept, sights)
  {
    hide FirstShown, Find;
  }

  /** `part` is drawn from `ops`. */
  ghost predicate Drawn(part: seq<RawOp>, ops: seq<RawOp>) {
    Shielded(part) && forall a <- part :: OnFile(a) ==> exists b <- ops :: SameTargets(b, a)
  }

  lemma PartEntries(st: Store, later: Store, ops: seq<RawOp>, part: seq<RawOp>, items: seq<PreviewItem>, kept: seq<PreviewItem>,
                    sights: seq<Sight>)
    requires Entries(st, ops, items, sights) && Drawn(part, ops) && st.records.Keys <= later.records.Keys
    requires (forall item <- kept :: item in items) && forall a <- part :: OnFile(a) ==> StillListed(a, items, kept)
    ensures Entries(later, part, kept, sights)
  {
    hide Entry, Shielded, StillListed, KindOf;
    forall a | a in part && OnFile(a) ensures Entry(later, a, kept, sights) {
      var b :| b in ops && SameTargets(b, a);
      SameTargetsAgree(b, a);
      EntryStays(st, later, b, a, items, kept, sights);
    }
  }

  lemma {:induction false} FilterDrawn(ops: seq<RawOp>, p: RawOp -> bool, part: seq<RawOp>)
    requires Shielded(ops) && KeepsShields(ops, p) && |part| == |Filter(ops, p)|
    requires forall i :: 0 <= i < |part| ==> SameTargets(Filter(ops, p)[i], part[i])
    ensures Drawn(part, Filter(ops, p)) && Drawn(part, ops)
  {
    hide Filter, Shielded, KeepsShields, SameTargets, Places;
    FilterShielded(ops, p);
    SameTargetsShielded(Filter(ops, p), part);
    forall a | a in part ensures exists b <- Filter(ops, p) :: b in ops && SameTargets(b, a) {
      var i :| 0 <= i < |part| && part[i] == a;
      FilterMember(ops, p, Filter(ops, p)[i]);
      assert Filter(ops, p)[i] in Filter(ops, p);
    }
  }

  lemma RemainderDrawn(ops: seq<RawOp>, p: RawOp -> bool)
    requires Shielded(ops) && KeepsShields(ops, p) && forall op <- ops :: Normal(op)
    ensures OwnIds(Remainder(Filter(ops, p)))
    ensures Drawn(Pending(Remainder(Filter(ops, p))), Filter(ops, p)) && Drawn(Pending(Remainder(Filter(ops, p))), ops)
  {
    hide Normal, Normalize, Filter, Shielded, KeepsShields, Drawn;
    var left := Filter(ops, p);
    var part := Pending(Remainder(left));
    if left != [] && Normalize(Remainder(left).value).Ok? {
      FilterKeepsNormal(ops, p);
      RemainderKeepsTargets(left);
      FilterDrawn(ops, p, part);
    } else {
      NothingDrawn(left);
      NothingDrawn(ops);
    }
  }

  lemma NothingDrawn(ops: seq<RawOp>)
    ensures Drawn([], ops)
  {
  }

  // ----- An apply -----

  lemma EffectKeepsKeys(env: Env, st: Store, op: RawOp)
    requires Appliable(env, st, op)
    ensures st.records.Keys <= Effect(env, st, op).0.records.Keys
  {
    hide KindOf, NewText, SafeFilename, SizeOf, OldText;
  }

  lemma {:induction false} ApplyAllKeepsKeys(env: Env, st: Store, ops: seq<RawOp>)
    ensures st.records.Keys <= ApplyAll(env, st, ops).store.records.Keys
    decreases |ops|
  {
    hide Effect, Appliable;
    if ops != [] && Appliable(env, st, ops[0]) {
      EffectKeepsKeys(env, st, ops[0]);
      ApplyAllKeepsKeys(env, Effect(env, st, ops[0]).0, ops[1..]);
    }
  }

  /** Whether an apply got as far as looking at a preview. */
  predicate Looked(r: Result<seq<RawOp>, Failure>, allow: bool) {
    !allow && (r.Ok? || r.error in {Conflict, ApplyFailed})
  }

  /** A failed apply keeps the patch and the records, and only what it has previewed. */
  lemma FailedApplyKeeps(env: Env, s: Session, sel: Selection, allow: bool)
    requires Apply(env, s, sel, allow).1.Err?
    ensures var (s', r) := Apply(env, s, sel, allow);
      var own := EnvOf(env, s, sel);
      && s'.patch == s.patch && s'.work.store.records == s.work.store.records
      && (Looked(r, allow) ==> Previewed(own, s).Ok?)
      && s'.preview == if Looked(r, allow) then Previewed(own, s).value.preview else s.preview
  {
    hide ApplyAll, PreviewAll, Normalize, Remainder, Applied, Left, Whole, SelectionFails, ConflictTouches, PreviewList;
  }

  lemma SameRecordsFollow(s: Session, t: Session, sights: seq<Sight>)
    requires Follows(s, sights) && t.patch == s.patch && t.preview == s.preview
    requires s.work.store.records.Keys <= t.work.store.records.Keys
    ensures Follows(t, sights)
  {
    hide Normalize, Pending, OwnIds;
    hide Shielded;
    var ops := Pending(s.patch);
    forall a | a in ops ensures exists b <- ops :: SameTargets(b, a) {
      assert SameTargets(a, a);
    }
    PartEntries(s.work.store, t.work.store, ops, ops, s.preview, s.preview, sights);
  }

  lemma FailedApplyFollows(env: Env, s: Session, sights: seq<Sight>, sel: Selection, allow: bool)
    requires Follows(s, sights) && Apply(env, s, sel, allow).1.Err?
    ensures var a := ApplyAction(sel, allow); Follows(Next(env, s, a), sights + Sights(env, s, a))
  {
    hide Follows, Apply, Previewed, Pending;
    FailedApplyKeeps(env, s, sel, allow);
    var (s', r) := Apply(env, s, sel, allow);
    if Looked(r, allow) {
      var own := EnvOf(env, s, sel);
      PreviewFollows(own, s, sights);
      PreviewKeeps(own, s);
      SameRecordsFollow(Previewed(own, s).value, s', sights + [Sight(s.work.store, Pending(s.patch))]);
      assert [Sight(s.work.store, Pending(s.patch))] + [] == [Sight(s.work.store, Pending(s.patch))];
    } else {
      SameRecordsFollow(s, s', sights);
      assert sights + ([] + []) == sights;
    }
  }

  lemma PreviewKeeps(env: Env, s: Session)
    requires Previewed(env, s).Ok?
    ensures Previewed(env, s).value == s.(preview := Previewed(env, s).value.preview)
  {
    hide Normalize, PreviewAll;
  }

  /** The session between the apply loop and the preview of what stays. */
  function Between(env: Env, s: Session, taken: seq<RawOp>, left: seq<RawOp>): Session {
    var p := ApplyAll(env, s.work.store, taken);
    Session(Work(p.store, Push(s.work.snapshots, p.items)), Remainder(left), s.preview, s.rejected)
  }

  lemma BetweenFollows(env: Env, s: Session, sights: seq<Sight>, taken: seq<RawOp>, p: RawOp -> bool)
    requires Follows(s, sights) && s.patch.Some? && Normalize(s.patch.value).Ok? && KeepsShields(Pending(s.patch), p)
    ensures Follows(Between(env, s, taken, Filter(Pending(s.patch), p)), sights)
  {
    hide Normalize, Pending, OwnIds, ApplyAll, Remainder, Filter, Push, Normal, Drawn, Shielded, KeepsShields, Entry;
    var ops := Pending(s.patch);
    PendingNormal(s.patch);
    RemainderDrawn(ops, p);
    ApplyAllKeepsKeys(env, s.work.store, taken);
    PartEntries(s.work.store, ApplyAll(env, s.work.store, taken).store, ops, Pending(Remainder(Filter(ops, p))), s.preview, s.preview,
                sights);
  }

  /** What is pending is previewed again; nothing is when nothing is left. */
  lemma FinishOutcome(env: Env, s: Session, taken: seq<RawOp>, left: seq<RawOp>)
    requires Finish(env, s, taken, left).1.Ok?
    ensures var done, s' := Between(env, s, taken, left), Finish(env, s, taken, left).0;
      if left == [] then s'.patch == None
      else s'.patch.Some? && Previewed(env, done) == Ok(s') && s'.work == done.work && s'.patch == done.patch
  {
    hide ApplyAll, PreviewAll, Normalize, Push;
  }

  lemma FinishFollows(env: Env, s: Session, sights: seq<Sight>, taken: seq<RawOp>, p: RawOp -> bool)
    requires Follows(s, sights) && s.patch.Some? && Normalize(s.patch.value).Ok? && KeepsShields(Pending(s.patch), p)
    requires Finish(env, s, taken, Filter(Pending(s.patch), p)).1.Ok?
    ensures var s' := Finish(env, s, taken, Filter(Pending(s.patch), p)).0;
      Follows(s', sights + if s'.patch.Some? then [Sight(s'.work.store, Pending(s'.patch))] else [])
  {
    hide Follows, Finish, Previewed, Pending, Filter, Between, KeepsShields;
    var left := Filter(Pending(s.patch), p);
    var done, s' := Between(env, s, taken, left), Finish(env, s, taken, left).0;
    FinishOutcome(env, s, taken, left);
    if left == [] {
      NothingPendingFollows(s', sights);
      assert sights + [] == sights;
    } else {
      BetweenFollows(env, s, sights, taken, p);
      PreviewFollows(env, done, sights);
    }
  }

  lemma NothingPendingFollows(s: Session, sights: seq<Sight>)
    requires s.patch.None?
    ensures Follows(s, sights)
  {
    NoEntries(s.work.store, s.preview, sights);
  }

  lemma ApplyFollows(env: Env, s: Session, sights: seq<Sight>, sel: Selection, allow: bool)
    requires Follows(s, sights) && Apply(env, s, sel, allow).1.Ok?
    ensures var a := ApplyAction(sel, allow); Follows(Next(env, s, a), sights + Sights(env, s, a))
  {
    hide Follows, Finish, Previewed, Pending, Filter, Apply, Whole, ConflictTouches, KeepsShields;
    var own := EnvOf(env, s, sel);
    var shown := ApplyFinishes(env, s, sel, allow);
    PendingNormal(s.patch);
    var ops, s' := Pending(s.patch), Apply(env, s, sel, allow).0;
    var whole := Whole(own, s.work.store);
    var before := if allow then [] else [Sight(s.work.store, ops)];
    var after := if s'.patch.Some? then [Sight(s'.work.store, Pending(s'.patch))] else [];
    if allow {
      assert sights + before == sights;
    } else {
      PreviewFollows(own, s, sights);
    }
    LeftKeepsShields(own, s.work.store, ops, sel);
    FinishFollows(own, shown, sights + before, Applied(ops, sel), (op: RawOp) => IsLeft(op, sel, whole));
    assert sights + before + after == sights + (before + after);
  }

  // ----- A reject -----

  lemma {:induction false} FindKept(items: seq<PreviewItem>, p: PreviewItem -> bool, id: string)
    requires forall item <- items :: item.operationId == id ==> p(item)
    ensures Find(Filter(items, p), id) == Find(items, id)
  {
    hide Find, Filter;
    var n := |items| - 1;
    if items == [] {
      NothingToFilter(items, p);
      assert items[..0] == items;
    } else {
      var front, last := items[..n], items[n];
      assert items[..n + 1] == items && items == front + [last];
      FilterStep(items, p, n);
      FindKept(front, p, id);
      FindAppended(front, last, id);
      FindAppended(Filter(front, p), last, id);
      assert Filter(front, p) + [] == Filter(front, p);
    }
  }

  lemma UnpickedStaysListed(a: RawOp, items: seq<PreviewItem>, files: set<nat>, ids: set<string>)
    requires OnFile(a) && !Picked(a, files, ids)
    requires forall item <- items :: item.operationId == a.operationId && item.file.Some? ==> item.file == Some(a.file.id)
    ensures StillListed(a, items, KeptItems(items, files, ids))
  {
    hide Find, Filter, KindOf;
    FindKept(items, (item: PreviewItem) => !ItemPicked(item, files, ids), a.operationId);
  }

  function Unpicked(ops: seq<RawOp>, files: set<nat>, ids: set<string>): seq<RawOp> {
    Filter(ops, (op: RawOp) => !Picked(op, files, ids))
  }

  lemma KeptPartEntries(s: Session, sights: seq<Sight>, files: set<nat>, ids: set<string>, part: seq<RawOp>)
    requires Follows(s, sights) && Drawn(part, Pending(s.patch)) && Drawn(part, Unpicked(Pending(s.patch), files, ids))
    ensures Entries(s.work.store, part, KeptItems(s.preview, files, ids), sights)
  {
    hide Normalize, Pending, OwnIds, Shielded, Filter, StillListed, KeptItems, Entry, OnFile, KindOf;
    var ops := Pending(s.patch);
    forall a | a in part && OnFile(a) ensures StillListed(a, s.preview, KeptItems(s.preview, files, ids)) {
      var b :| b in Unpicked(ops, files, ids) && SameTargets(b, a);
      FilterMember(ops, (op: RawOp) => !Picked(op, files, ids), b);
      SameTargetsAgree(b, a);
      EntryFiles(s.work.store, b, s.preview, sights);
      UnpickedStaysListed(a, s.preview, files, ids);
    }
    forall item | item in KeptItems(s.preview, files, ids) ensures item in s.preview {
      KeptIsOld(s.preview, files, ids, item);
    }
    PartEntries(s.work.store, s.work.store, ops, part, s.preview, KeptItems(s.preview, files, ids), sights);
  }

  lemma EntryFiles(st: Store, op: RawOp, items: seq<PreviewItem>, sights: seq<Sight>)
    requires OnFile(op) && Entry(st, op, items, sights)
    ensures forall item <- items :: item.operationId == op.operationId && item.file.Some? ==> item.file == Some(op.file.id)
  {
  }

  lemma KeptIsOld(items: seq<PreviewItem>, files: set<nat>, ids: set<string>, item: PreviewItem)
    requires item in KeptItems(items, files, ids)
    ensures item in items
  {
    hide Filter;
    FilterMember(items, (i: PreviewItem) => !ItemPicked(i, files, ids), item);
  }

  lemma RejectOpsFollows(s: Session, sights: seq<Sight>, files: set<nat>, ids: set<string>)
    requires Follows(s, sights) && s.patch.Some? && !FilesShaped(s.patch.value) && Normalize(s.patch.value).Ok?
    ensures Follows(s.(patch := Remainder(Unpicked(Pending(s.patch), files, ids)), preview := KeptItems(s.preview, files, ids)), sights)
  {
    hide Normalize, Pending, OwnIds, Shielded, KeepsShields, Filter, Drawn, KeptItems, Entry, Remainder, Normal;
    PendingNormal(s.patch);
    UnpickedKeepsShields(Pending(s.patch), files, ids);
    RemainderDrawn(Pending(s.patch), (op: RawOp) => !Picked(op, files, ids));
    KeptPartEntries(s, sights, files, ids, Pending(Remainder(Unpicked(Pending(s.patch), files, ids))));
  }

  /** A file item is read in the same way at every place, but for a generated id. */
  lemma FileItemAnywhere(raw: RawOp, i: nat, j: nat)
    ensures NormalizeFile(raw, i).Ok? <==> NormalizeFile(raw, j).Ok?
    ensures NormalizeFile(raw, i).Ok? ==>
      var a, b := NormalizeFile(raw, i).value, NormalizeFile(raw, j).value;
      && a.typ == "modify" && a.file == raw.file && b == a.(operationId := b.operationId)
      && (raw.operationId != "" ==> a == b && a.operationId == raw.operationId)
  {
    hide NormalizeName;
  }

  lemma FileItemIsModify(op: RawOp)
    requires op.typ == "modify"
    ensures KindOf(op) == Modify && (OnFile(op) <==> op.file.FileId?)
  {
    NamesDiffer();
  }

  function OnFiles(ops: seq<RawOp>): seq<RawOp> {
    Filter(ops, (op: RawOp) => OnFile(op))
  }

  lemma OnFilesCons(op: RawOp, ops: seq<RawOp>)
    ensures OnFiles([op] + ops) == (if OnFile(op) then [op] else []) + OnFiles(ops)
  {
    hide OnFile;
    assert ([op] + ops)[1..] == ops;
  }

  lemma UnpickedCons(op: RawOp, ops: seq<RawOp>, files: set<nat>, ids: set<string>)
    ensures Unpicked([op] + ops, files, ids) == (if Picked(op, files, ids) then [] else [op]) + Unpicked(ops, files, ids)
  {
    hide Picked;
    assert ([op] + ops)[1..] == ops;
  }

  lemma NormalizeCons(raw: RawOp, raws: seq<Option<RawOp>>, i: nat)
    ensures var first, rest := NormalizeFile(raw, i), NormalizeItems(raws, true, i + 1);
      NormalizeItems([Some(raw)] + raws, true, i) ==
        if first.Err? then Err(first.error) else if rest.Err? then rest else Ok([first.value] + rest.value)
  {
    hide NormalizeFile;
    assert ([Some(raw)] + raws)[1..] == raws;
  }

  /** What a list of file items is read as. */
  function FileOps(raws: seq<Option<RawOp>>, i: nat): seq<RawOp>
    requires NormalizeItems(raws, true, i).Ok?
  {
    NormalizeItems(raws, true, i).value
  }

  function LeftRaws(raws: seq<Option<RawOp>>, files: set<nat>, ids: set<string>): seq<Option<RawOp>>
    requires AllObjects(raws)
  {
    Wrapped(RawPicked(raws, files, ids, false))
  }

  lemma WrappedCons(op: RawOp, ops: seq<RawOp>)
    ensures Wrapped([op] + ops) == [Some(op)] + Wrapped(ops)
  {
    hide Wrapped;
    var all, rest := Wrapped([op] + ops), Wrapped(ops);
    assert all[0] == Some(op);
    forall k | 0 <= k < |rest| ensures all[k + 1] == rest[k] {
      assert ([op] + ops)[k + 1] == ops[k];
    }
    assert all == [all[0]] + all[1..];
    assert all[1..] == rest;
  }

  lemma EmptyFirst<T>(s: seq<T>)
    ensures [] + s == s
  {
  }

  lemma LeftRawsCons(raw: RawOp, rest: seq<Option<RawOp>>, files: set<nat>, ids: set<string>)
    requires AllObjects(rest)
    ensures AllObjects([Some(raw)] + rest)
    ensures LeftRaws([Some(raw)] + rest, files, ids) ==
      (if Picked(raw, files, ids) then [] else [Some(raw)]) + LeftRaws(rest, files, ids)
  {
    hide RawPicked, Picked, Wrapped;
    RawPickedCons(Some(raw), rest, files, ids, false);
    WrappedCons(raw, RawPicked(rest, files, ids, false));
    EmptyFirst(RawPicked(rest, files, ids, false));
    EmptyFirst(Wrapped(RawPicked(rest, files, ids, false)));
  }

  /** What stays of the file items that name files with ids of their own reads as what stays of the operations on files. */
  lemma {:induction false} RejectedFilesRead(raws: seq<Option<RawOp>>, files: set<nat>, ids: set<string>, i: nat, j: nat)
    requires AllObjects(raws) && NormalizeItems(raws, true, i).Ok?
    ensures NormalizeItems(LeftRaws(raws, files, ids), true, j).Ok?
    ensures (forall k :: 0 <= k < |raws| ==> HasOwnId(raws[k].value)) ==>
              OnFiles(FileOps(LeftRaws(raws, files, ids), j)) == Unpicked(OnFiles(FileOps(raws, i)), files, ids)
    decreases |raws|
  {
    hide NormalizeFile, Filter, Picked, NormalizeItems, RawPicked, OnFiles, Unpicked, LeftRaws, KindOf, HasOwnId;
    if raws == [] {
      NothingRead(files, ids, i, j);
    } else {
      var raw, rest := raws[0].value, raws[1..];
      assert raws == [Some(raw)] + rest;
      NormalizeCons(raw, rest, i);
      LeftRawsCons(raw, rest, files, ids);
      var next := if Picked(raw, files, ids) then j else j + 1;
      RejectedFilesRead(rest, files, ids, i + 1, next);
      RejectedFileCons(raw, rest, files, ids, i, j);
    }
  }

  lemma RejectedFileCons(raw: RawOp, rest: seq<Option<RawOp>>, files: set<nat>, ids: set<string>, i: nat, j: nat)
    requires AllObjects(rest) && AllObjects([Some(raw)] + rest) && NormalizeItems([Some(raw)] + rest, true, i).Ok?
    requires NormalizeItems(rest, true, i + 1).Ok?
    requires var next := if Picked(raw, files, ids) then j else j + 1;
      && NormalizeItems(LeftRaws(rest, files, ids), true, next).Ok?
      && ((forall k :: 0 <= k < |rest| ==> HasOwnId(rest[k].value)) ==>
            OnFiles(FileOps(LeftRaws(rest, files, ids), next)) == Unpicked(OnFiles(FileOps(rest, i + 1)), files, ids))
    ensures var raws := [Some(raw)] + rest;
      && NormalizeItems(LeftRaws(raws, files, ids), true, j).Ok?
      && ((forall k :: 0 <= k < |raws| ==> HasOwnId(raws[k].value)) ==>
            OnFiles(FileOps(LeftRaws(raws, files, ids), j)) == Unpicked(OnFiles(FileOps(raws, i)), files, ids))
  {
    hide NormalizeFile, Filter, Picked, NormalizeItems, RawPicked, OnFiles, Unpicked, LeftRaws, KindOf;
    var raws := [Some(raw)] + rest;
    NormalizeCons(raw, rest, i);
    LeftRawsCons(raw, rest, files, ids);
    FileItemAnywhere(raw, i, j);
    var op, left := NormalizeFile(raw, i).value, LeftRaws(rest, files, ids);
    NormalizeCons(raw, left, j);
    FileItemIsModify(op);
    OnFilesCons(op, FileOps(rest, i + 1));
    UnpickedCons(op, OnFiles(FileOps(rest, i + 1)), files, ids);
    var kept := Unpicked(OnFiles(FileOps(rest, i + 1)), files, ids);
    assert [] + kept == kept && [] + left == left && [] + OnFiles(FileOps(rest, i + 1)) == OnFiles(FileOps(rest, i + 1));
    if Picked(raw, files, ids) {
      if forall k :: 0 <= k < |raws| ==> HasOwnId(raws[k].value) {
        OwnIdsTail(raw, rest);
        if op.file.FileId? {
          SamePicked(raw, op, files, ids);
        }
      }
    } else {
      var moved := NormalizeFile(raw, j).value;
      FileItemIsModify(moved);
      OnFilesCons(moved, FileOps(left, j + 1));
      assert [] + OnFiles(FileOps(left, j + 1)) == OnFiles(FileOps(left, j + 1));
      if forall k :: 0 <= k < |raws| ==> HasOwnId(raws[k].value) {
        OwnIdsTail(raw, rest);
        if op.file.FileId? {
          SamePicked(raw, op, files, ids);
        }
      }
    }
  }

  lemma OwnIdsTail(raw: RawOp, rest: seq<Option<RawOp>>)
    requires AllObjects(rest) && AllObjects([Some(raw)] + rest)
    requires var raws := [Some(raw)] + rest; forall k :: 0 <= k < |raws| ==> HasOwnId(raws[k].value)
    ensures HasOwnId(raw) && forall k :: 0 <= k < |rest| ==> HasOwnId(rest[k].value)
  {
    hide HasOwnId;
    var raws := [Some(raw)] + rest;
    assert HasOwnId(raws[0].value);
    forall k | 0 <= k < |rest| ensures HasOwnId(rest[k].value) {
      assert raws[k + 1] == rest[k];
    }
  }

  lemma NothingRead(files: set<nat>, ids: set<string>, i: nat, j: nat)
    ensures AllObjects([]) && NormalizeItems(LeftRaws([], files, ids), true, j) == Ok([]) && NormalizeItems([], true, i) == Ok([])
    ensures OnFiles([]) == Unpicked(OnFiles([]), files, ids)
  {
  }

  lemma SamePicked(raw: RawOp, op: RawOp, files: set<nat>, ids: set<string>)
    requires op.operationId == raw.operationId && op.file == raw.file
    ensures Picked(op, files, ids) <==> Picked(raw, files, ids)
  {
  }

  /** All are modifications, as file items are. */
  predicate Modifies(ops: seq<RawOp>) {
    forall op <- ops :: op.typ == "modify"
  }

  lemma {:induction false} FileItemsModify(raws: seq<Option<RawOp>>, i: nat)
    requires NormalizeItems(raws, true, i).Ok?
    ensures Modifies(FileOps(raws, i))
    decreases |raws|
  {
    hide NormalizeFile;
    if raws != [] {
      FileItemsModify(raws[1..], i + 1);
      if raws[0].Some? {
        FileItemAnywhere(raws[0].value, i, i);
      }
    }
  }

  /** Modifications are shielded when one id means one file. */
  lemma ModifiesShielded(ops: seq<RawOp>)
    requires Modifies(ops)
    requires forall a <- ops, b <- ops :: OnFile(a) && OnFile(b) && a.operationId == b.operationId ==> a.file == b.file
    ensures Shielded(ops)
  {
    hide KindOf;
    forall op | op in ops ensures KindOf(op) == Modify {
      FileItemIsModify(op);
    }
  }

  lemma OnFilesMember(ops: seq<RawOp>, op: RawOp)
    ensures op in OnFiles(ops) <==> op in ops && OnFile(op)
  {
    FilterMember(ops, (o: RawOp) => OnFile(o), op);
  }

  /** The patch left of a list of file items. */
  function FilesLeft(p: Payload, files: set<nat>, ids: set<string>): Payload
    requires AllObjects(p.files)
  {
    p.(files := LeftRaws(p.files, files, ids))
  }

  lemma LeftRawsOwn(raws: seq<Option<RawOp>>, files: set<nat>, ids: set<string>)
    requires AllObjects(raws) && forall k :: 0 <= k < |raws| ==> HasOwnId(raws[k].value)
    ensures forall k :: 0 <= k < |LeftRaws(raws, files, ids)| ==> HasOwnId(LeftRaws(raws, files, ids)[k].value)
  {
    hide RawPicked, Picked, HasOwnId;
    forall raw | raw in RawPicked(raws, files, ids, false) ensures HasOwnId(raw) {
      RawPickedMember(raws, files, ids, false, raw);
      var i :| 0 <= i < |raws| && raws[i] == Some(raw);
    }
  }

  ghost predicate AllOwnIds(raws: seq<Option<RawOp>>)
    requires AllObjects(raws)
  {
    forall k :: 0 <= k < |raws| ==> HasOwnId(raws[k].value)
  }

  /** What a reject leaves of a list of file items can still be read. */
  lemma FilesLeftReads(p: Payload, files: set<nat>, ids: set<string>)
    requires FilesShaped(p) && Normalize(p).Ok? && AllObjects(p.files)
    ensures Normalize(FilesLeft(p, files, ids)).Ok?
    ensures var left, ops := Pending(Some(FilesLeft(p, files, ids))), Pending(Some(p));
      && left == FileOps(LeftRaws(p.files, files, ids), 0) && ops == FileOps(p.files, 0) && Modifies(left) && Modifies(ops)
      && (AllOwnIds(p.files) ==>
            AllOwnIds(FilesLeft(p, files, ids).files) && OnFiles(left) == Unpicked(OnFiles(ops), files, ids))
  {
    hide NormalizeItems, RawPicked, Filter, Picked, LeftRaws, HasOwnId, KindOf, Unpicked, OnFiles;
    RejectedFilesRead(p.files, files, ids, 0, 0);
    NoOperationItems(p);
    NoOperationItems(FilesLeft(p, files, ids));
    FileItemsModify(LeftRaws(p.files, files, ids), 0);
    FileItemsModify(p.files, 0);
    if AllOwnIds(p.files) {
      LeftRawsOwn(p.files, files, ids);
    }
  }

  /** Rejecting a part of a guarded list of file items leaves it guarded, with what stays of the operations on files. */
  lemma FilesLeftPending(p: Payload, files: set<nat>, ids: set<string>)
    requires FilesShaped(p) && Normalize(p).Ok? && OwnIds(Some(p)) && AllObjects(p.files) && Shielded(Pending(Some(p)))
    ensures var left, ops := Pending(Some(FilesLeft(p, files, ids))), Pending(Some(p));
      && OwnIds(Some(FilesLeft(p, files, ids))) && Shielded(left)
      && OnFiles(left) == Unpicked(OnFiles(ops), files, ids)
  {
    hide Normalize, Pending, Filter, Picked, LeftRaws, HasOwnId, Shielded, KindOf, Unpicked, OnFiles, FileOps;
    FilesLeftReads(p, files, ids);
    var left, ops := Pending(Some(FilesLeft(p, files, ids))), Pending(Some(p));
    forall op | op in left && OnFile(op) ensures op in ops {
      StaysOnFile(ops, left, files, ids, op);
    }
    forall a, b | a in left && b in left && OnFile(a) && OnFile(b) && a.operationId == b.operationId ensures a.file == b.file {
      OneFile(ops, a, b);
    }
    ModifiesShielded(left);
  }

  lemma StaysOnFile(ops: seq<RawOp>, left: seq<RawOp>, files: set<nat>, ids: set<string>, op: RawOp)
    requires OnFiles(left) == Unpicked(OnFiles(ops), files, ids) && op in left && OnFile(op)
    ensures op in ops && !Picked(op, files, ids) && op in Unpicked(ops, files, ids)
  {
    hide Filter, OnFile, Picked;
    OnFilesMember(left, op);
    FilterMember(OnFiles(ops), (o: RawOp) => !Picked(o, files, ids), op);
    FilterMember(ops, (o: RawOp) => !Picked(o, files, ids), op);
    OnFilesMember(ops, op);
  }

  lemma NoOperationItems(p: Payload)
    requires FilesShaped(p)
    ensures Normalize(p) == NormalizeItems(p.files, true, 0)
  {
    var files := NormalizeItems(p.files, true, 0);
    if files.Ok? {
      assert [] + files.value == files.value;
    }
  }

  lemma RejectFilesFollows(s: Session, sights: seq<Sight>, files: set<nat>, ids: set<string>)
    requires Follows(s, sights) && s.patch.Some? && FilesShaped(s.patch.value) && AllObjects(s.patch.value.files)
    ensures Follows(s.(patch := Some(FilesLeft(s.patch.value, files, ids)), preview := KeptItems(s.preview, files, ids)), sights)
  {
    hide Normalize, Pending, Filter, Shielded, KeepsShields, KeptItems, Entry, FilesLeft, Unpicked, OnFiles, KindOf, HasOwnId;
    var ops, left := Pending(s.patch), Pending(Some(FilesLeft(s.patch.value, files, ids)));
    FilesLeftPending(s.patch.value, files, ids);
    forall a | a in left && OnFile(a) ensures a in ops && a in Unpicked(ops, files, ids) && SameTargets(a, a) {
      StaysOnFile(ops, left, files, ids, a);
    }
    KeptPartEntries(s, sights, files, ids, left);
  }

  lemma RejectFollows(s: Session, sights: seq<Sight>, files: set<nat>, ids: set<string>)
    requires Follows(s, sights) && Reject(s, files, ids).Ok?
    ensures Follows(Reject(s, files, ids).value.0, sights)
  {
    hide Normalize, Pending, Filter, KeptItems, Follows, Remainder, RawPicked;
    if s.patch.None? || (files == {} && ids == {}) {
      NothingPendingFollows(s.(patch := None, preview := []), sights);
    } else if FilesShaped(s.patch.value) {
      RejectFilesFollows(s, sights, files, ids);
      NothingPendingFollows(s.(patch := None, preview := []), sights);
    } else {
      PendingNormal(s.patch);
      RejectOpsFollows(s, sights, files, ids);
    }
  }

  // ----- Runs -----

  lemma ChangedStoreFollows(env: Env, s: Session, sights: seq<Sight>, a: Action)
    requires Follows(s, sights) && Enabled(s, a) && (a.ChangeAction? || a.RollbackAction? || a.VerdictAction?)
    ensures Follows(Next(env, s, a), sights)
  {
    hide Follows, RestoreAll;
    if a.RollbackAction? && Rollback(s.work, a.index).Ok? {
      var i := if a.index.Some? then a.index.value else |s.work.snapshots| - 1;
      RestoreAllKeepsKeys(s.work.store, s.work.snapshots[i]);
    }
    SameRecordsFollow(s, Next(env, s, a), sights);
  }

  lemma NextFollows(env: Env, s: Session, sights: seq<Sight>, a: Action)
    requires Follows(s, sights) && Enabled(s, a) && !a.GenerateAction?
    ensures Follows(Next(env, s, a), sights + Sights(env, s, a))
  {
    hide Follows, Apply, Previewed, Reject, Rollback, Pending, Enabled;
    match a
    case GenerateAction(_) =>
    case PreviewAction =>
      if Previewed(env, s).Ok? {
        PreviewFollows(env, s, sights);
      } else {
        assert sights + [] == sights;
      }
    case ApplyAction(sel, allow) =>
      if Apply(env, s, sel, allow).1.Ok? {
        ApplyFollows(env, s, sights, sel, allow);
      } else {
        FailedApplyFollows(env, s, sights, sel, allow);
      }
    case RejectAction(files, ids) =>
      assert sights + [] == sights;
      if Reject(s, files, ids).Ok? {
        RejectFollows(s, sights, files, ids);
      }
    case _ =>
      assert sights + [] == sights;
      ChangedStoreFollows(env, s, sights, a);
  }

  /** No new patch comes. */
  predicate SamePatch(actions: seq<Action>) {
    forall a <- actions :: !a.GenerateAction?
  }

  /** At every point of a run, the entries under the id of a pending operation keep the checksum its file was first shown
      with. */
  lemma {:induction false} RunFollows(env: Env, s: Session, sights: seq<Sight>, actions: seq<Action>)
    requires Follows(s, sights) && Possible(env, s, actions) && SamePatch(actions)
    ensures Follows(After(env, s, actions), sights + SightsOf(env, s, actions))
    decreases |actions|
  {
    hide Follows, Next, Sights, Enabled;
    if actions == [] {
      assert sights + [] == sights;
    } else {
      NextFollows(env, s, sights, actions[0]);
      RunFollows(env, Next(env, s, actions[0]), sights + Sights(env, s, actions[0]), actions[1..]);
      Associates(sights, Sights(env, s, actions[0]), SightsOf(env, Next(env, s, actions[0]), actions[1..]));
    }
  }
}
