// Runs of one code session: an apply that does not allow conflicts never overwrites a text that changed since the
// operation was first shown (backend/services/agent/code_workspace.py).
module LostUpdates {
  import opened CodeSessions
  import opened PatchPayload
  import opened PatchSelection
  import opened SessionRuns
  import opened SharedIds
  import opened ShownEntries
  import opened Sublists
  import opened Workspace
  import opened WorkspaceFailures
  import opened WorkspaceFiles
  import opened WorkspacePreviews
  import opened Wrappers

  // ----- Where a run begins -----

  /** The ids last, and those that are shared keep to their files. */
  ghost predicate Guarded(patch: Option<Payload>) {
    OwnIds(patch) && Shielded(Pending(patch))
  }

  /** A patch that has not been previewed. */
  ghost predicate Unseen(s: Session) {
    s.preview == [] && Guarded(s.patch)
  }

  /** What an older patch has left under the ids of the operations says nothing else than the files do. */
  ghost predicate Unstale(st: Store, ops: seq<RawOp>, items: seq<PreviewItem>) {
    forall op <- ops :: OnFile(op) && BaseOf(items, op.operationId).Some? ==>
      BaseOf(items, op.operationId) == ChecksumOf(st, op.file.id)
  }

  /** The run begins with the generation of a patch that can be previewed. */
  ghost predicate BeginsWithPatch(env: Env, s: Session, actions: seq<Action>) {
    && actions != [] && actions[0].GenerateAction? && SamePatch(actions[1..])
    && var patch := Some(actions[0].payload);
       Guarded(patch) && Previewed(env, s.(patch := patch)).Ok? && Unstale(s.work.store, Pending(patch), s.preview)
  }

  /** All of the run is about one patch, from its generation on, or from a state in which it has not been previewed. */
  ghost predicate Begins(env: Env, s: Session, actions: seq<Action>) {
    BeginsWithPatch(env, s, actions) || (Unseen(s) && SamePatch(actions))
  }

  lemma UnseenFollows(s: Session)
    requires Unseen(s)
    ensures Follows(s, [])
  {
    hide Normalize, Pending, OwnIds, Shielded;
  }

  lemma FirstEntries(st: Store, ops: seq<RawOp>, items: seq<PreviewItem>)
    requires Shielded(ops) && Unstale(st, ops, items)
    ensures Entries(st, ops, PreviewList(st, ops, items), [Sight(st, ops)])
  {
    hide Shielded, PreviewList, FirstShown, BaseOf, KindOf;
    var shown := PreviewList(st, ops, items);
    forall op | op in ops && OnFile(op) ensures Entry(st, op, shown, [Sight(st, ops)]) {
      BaseIsKept(st, ops, items, op);
      FirstShownOne(st, ops, op.operationId, op.file.id);
      forall item | item in shown && item.operationId == op.operationId && item.file.Some? ensures item.file == Some(op.file.id) {
        EntriesNameFile(st, ops, items, op, item);
      }
    }
  }

  lemma GeneratedFollows(env: Env, s: Session, actions: seq<Action>)
    requires BeginsWithPatch(env, s, actions)
    ensures Follows(Next(env, s, actions[0]), Sights(env, s, actions[0]))
  {
    hide Normalize, Entries, OwnIds, Shielded, PreviewList, Unstale, AllPreviewable;
    var patch := Some(actions[0].payload);
    FirstEntries(s.work.store, Pending(patch), s.preview);
  }

  lemma BeginsFollows(env: Env, s: Session, actions: seq<Action>)
    requires Begins(env, s, actions) && Possible(env, s, actions)
    ensures var t, sights := After(env, s, actions), SightsOf(env, s, actions);
      Follows(t, sights) && Entries(t.work.store, Pending(t.patch), t.preview, sights)
  {
    hide Next, Entries, OwnIds, Pending, Sights, Guarded, Unstale, Previewed, Enabled, Unseen;
    if BeginsWithPatch(env, s, actions) {
      GeneratedFollows(env, s, actions);
      RunFollows(env, Next(env, s, actions[0]), Sights(env, s, actions[0]), actions[1..]);
    } else {
      UnseenFollows(s);
      RunFollows(env, s, [], actions);
      assert [] + SightsOf(env, s, actions) == SightsOf(env, s, actions);
    }
  }

  // ----- Conflicts -----

  /** The file of the operation has not the checksum the operation was first shown with. */
  ghost predicate Changed(sights: seq<Sight>, st: Store, op: RawOp) {
    OnFile(op) && op.file.id in st.records && FirstShown(sights, op.operationId, op.file.id) != ChecksumOf(st, op.file.id)
  }

  predicate SameIdOrFile(a: RawOp, b: RawOp) {
    a.operationId == b.operationId || (a.file.FileId? && a.file == b.file)
  }

  lemma ConflictIffChanged(st: Store, ops: seq<RawOp>, items: seq<PreviewItem>, sights: seq<Sight>, op: RawOp)
    requires Entries(st, ops, items, sights) && op in ops
    ensures var r := PreviewOf(st, op, items);
      && ((r.Some? && r.value.conflict) <==> Changed(sights + [Sight(st, ops)], st, op))
      && (r.Some? ==> r.value.operationId == op.operationId)
      && (r.Some? && r.value.conflict ==> op.file.FileId? && r.value.file == Some(op.file.id))
  {
    hide KindOf, FirstShown, Find, Shielded;
    if OnFile(op) {
      NextShown(sights, st, ops, op);
      assert Entry(st, op, items, sights);
    }
  }

  lemma {:induction false} EntryIsListed(st: Store, ops: seq<RawOp>, previous: seq<PreviewItem>, op: RawOp)
    requires op in ops && PreviewOf(st, op, previous).Some?
    ensures PreviewOf(st, op, previous).value in PreviewList(st, ops, previous)
  {
    hide PreviewOf;
    var n := |ops| - 1;
    if ops[n] != op {
      assert op in ops[..n];
      EntryIsListed(st, ops[..n], previous, op);
    }
  }

  /** In a fresh preview, a conflict touches what is taken exactly when something changed has its id or its file. */
  lemma TouchesIffChanged(st: Store, ops: seq<RawOp>, items: seq<PreviewItem>, sights: seq<Sight>, taken: seq<RawOp>)
    requires Entries(st, ops, items, sights)
    ensures ConflictTouches(PreviewList(st, ops, items), taken) <==>
      exists a <- taken, b <- ops :: Changed(sights + [Sight(st, ops)], st, b) && SameIdOrFile(a, b)
  {
    hide KindOf, FirstShown, Find, Shielded, PreviewOf, PreviewList, Changed, Entry;
    var shown, all := PreviewList(st, ops, items), sights + [Sight(st, ops)];
    if ConflictTouches(shown, taken) {
      var item, a :| item in shown && a in taken && item.conflict &&
        (a.operationId == item.operationId || (item.file.Some? && a.file == FileId(item.file.value)));
      var b := ItemHasOp(st, ops, items, item);
      ConflictIffChanged(st, ops, items, sights, b);
      assert SameIdOrFile(a, b);
    }
    if exists a <- taken, b <- ops :: Changed(all, st, b) && SameIdOrFile(a, b) {
      var a, b :| a in taken && b in ops && Changed(all, st, b) && SameIdOrFile(a, b);
      ConflictIffChanged(st, ops, items, sights, b);
      EntryIsListed(st, ops, items, b);
      var item := PreviewOf(st, b, items).value;
      assert item in shown && item.conflict;
    }
  }

  /** The previews of a run, and the one an apply then makes of the operations pending. */
  function Looks(env: Env, s: Session, actions: seq<Action>): seq<Sight> {
    var t := After(env, s, actions);
    SightsOf(env, s, actions) + [Sight(t.work.store, Pending(t.patch))]
  }

  lemma AppliedDrawn(ops: seq<RawOp>, sel: Selection, op: RawOp)
    requires op in Applied(ops, sel)
    ensures op in ops
  {
    FilterMember(ops, (o: RawOp) => IsApplied(o, sel), op);
  }

  lemma LookedAt(env: Env, s: Session)
    requires s.patch.Some? && Previewed(env, s).Ok?
    ensures Previewed(env, s).value.preview == PreviewList(s.work.store, Pending(s.patch), s.preview)
  {
    hide Normalize, PreviewList, AllPreviewable;
  }

  /** Over any run of previews, partial applies, rejects, rollbacks and outside changes: what an apply that does not allow
      conflicts takes still has the checksum it had when the operation was first shown. */
  lemma {:induction false} NoLostUpdate(env: Env, s: Session, actions: seq<Action>, sel: Selection)
    requires Begins(env, s, actions) && Possible(env, s, actions)
    requires Apply(env, After(env, s, actions), sel, false).1.Ok?
    ensures var t := After(env, s, actions);
      forall op <- Apply(env, t, sel, false).1.value :: OnFile(op) && op.file.id in t.work.store.records ==>
        FirstShown(Looks(env, s, actions), op.operationId, op.file.id) == Some(t.work.store.records[op.file.id].checksum)
  {
    hide Follows, Begins, Entries, Apply, After, Possible, SightsOf, Previewed, FirstShown, KindOf, Pending, Finish, Filter,
      ConflictTouches, PreviewList, Whole;
    var t, sights := After(env, s, actions), SightsOf(env, s, actions);
    BeginsFollows(env, s, actions);
    var shown := ApplyFinishes(env, t, sel, false);
    PendingNormal(t.patch);
    var ops, taken := Pending(t.patch), Applied(Pending(t.patch), sel);
    FinishPatch(EnvOf(env, t, sel), shown, taken, Left(ops, sel, Whole(EnvOf(env, t, sel), t.work.store)));
    LookedAt(EnvOf(env, t, sel), t);
    TouchesIffChanged(t.work.store, ops, t.preview, sights, taken);
    forall op | op in taken && OnFile(op) && op.file.id in t.work.store.records
      ensures FirstShown(Looks(env, s, actions), op.operationId, op.file.id) == ChecksumOf(t.work.store, op.file.id)
    {
      AppliedDrawn(ops, sel, op);
      assert SameIdOrFile(op, op);
      assert !Changed(sights + [Sight(t.work.store, ops)], t.work.store, op);
    }
  }

  /** An apply gets as far as looking for conflicts. */
  predicate LooksForConflicts(env: Env, s: Session, sel: Selection) {
    && s.patch.Some? && Normalize(s.patch.value).Ok?
    && !SelectionFails(EnvOf(env, s, sel), s.work.store, Pending(s.patch), sel)
    && (NothingSelected(sel) || Applied(Pending(s.patch), sel) != [])
    && Previewed(EnvOf(env, s, sel), s).Ok?
  }

  lemma RefusedOnTouch(env: Env, s: Session, sel: Selection)
    requires LooksForConflicts(env, s, sel)
    ensures Apply(env, s, sel, false).1 == Err(Conflict) <==>
      ConflictTouches(Previewed(EnvOf(env, s, sel), s).value.preview, Applied(Pending(s.patch), sel))
  {
    hide Previewed, Normalize, SelectionFails, Applied, Left, Whole, ConflictTouches, ApplyAll, Remainder;
  }

  /** Such an apply is refused exactly when an operation whose file changed since it was first shown has the id or the file
      of one that is taken. */
  lemma {:induction false} RefusedIffChanged(env: Env, s: Session, actions: seq<Action>, sel: Selection)
    requires Begins(env, s, actions) && Possible(env, s, actions) && LooksForConflicts(env, After(env, s, actions), sel)
    ensures var t := After(env, s, actions);
      Apply(env, t, sel, false).1 == Err(Conflict) <==>
        exists a <- Applied(Pending(t.patch), sel), b <- Pending(t.patch) ::
          Changed(Looks(env, s, actions), t.work.store, b) && SameIdOrFile(a, b)
  {
    hide Follows, Begins, Entries, Apply, After, Possible, SightsOf, Previewed, FirstShown, KindOf, Pending, Applied,
      ConflictTouches, PreviewList, SelectionFails, Normalize, Changed;
    var t, sights := After(env, s, actions), SightsOf(env, s, actions);
    BeginsFollows(env, s, actions);
    LookedAt(EnvOf(env, t, sel), t);
    TouchesIffChanged(t.work.store, Pending(t.patch), t.preview, sights, Applied(Pending(t.patch), sel));
    RefusedOnTouch(env, t, sel);
  }

  // ----- Texts -----

  lemma {:induction false} FirstSight(sights: seq<Sight>, id: string, file: nat) returns (i: nat)
    requires FirstShown(sights, id, file).Some?
    ensures i < |sights| && ShownWith(sights[i].store, sights[i].ops, id, file) == FirstShown(sights, id, file)
    ensures forall j :: 0 <= j < i ==> ShownWith(sights[j].store, sights[j].ops, id, file) == None
  {
    hide ShownWith;
    if ShownWith(sights[0].store, sights[0].ops, id, file).Some? {
      i := 0;
    } else {
      var rest := FirstSight(sights[1..], id, file);
      i := rest + 1;
    }
  }

  /** So the file it overwrites holds the object it held when the operation was first shown, wherever the records describe
      their objects. */
  lemma {:induction false} NoLostText(env: Env, s: Session, actions: seq<Action>, sel: Selection, op: RawOp) returns (i: nat)
    requires Begins(env, s, actions) && Possible(env, s, actions) && Apply(env, After(env, s, actions), sel, false).1.Ok?
    requires op in Apply(env, After(env, s, actions), sel, false).1.value && OnFile(op)
    requires ActiveTarget(After(env, s, actions).work.store, op)
    requires forall look <- Looks(env, s, actions) :: Consistent(look.store)
    ensures var looks, t := Looks(env, s, actions), After(env, s, actions);
      && i < |looks|
      && (forall j :: 0 <= j < i ==> ShownWith(looks[j].store, looks[j].ops, op.operationId, op.file.id) == None)
      && op.file.id in looks[i].store.records
      && (looks[i].store.records[op.file.id].status == Active ==>
            Stored(looks[i].store, op.file.id) == Stored(t.work.store, op.file.id))
  {
    hide Apply, After, Begins, Possible, SightsOf, FirstShown, KindOf, Pending, SizeOf;
    NoLostUpdate(env, s, actions, sel);
    var looks, t := Looks(env, s, actions), After(env, s, actions);
    i := FirstSight(looks, op.operationId, op.file.id);
    assert looks[|looks| - 1].store == t.work.store;
    assert Agrees(ViewOf(looks[i].store, op.file.id)) && Agrees(ViewOf(t.work.store, op.file.id));
  }

  // ----- What an older patch leaves behind -----

  /** If an apply gets as far as looking for conflicts, it is refused exactly for a change. */
  ghost predicate RefusesExactly(env: Env, s: Session, actions: seq<Action>, sel: Selection) {
    Possible(env, s, actions) && LooksForConflicts(env, After(env, s, actions), sel) ==>
      var t := After(env, s, actions);
      (Apply(env, t, sel, false).1 == Err(Conflict) <==>
         exists a <- Applied(Pending(t.patch), sel), b <- Pending(t.patch) ::
           Changed(Looks(env, s, actions), t.work.store, b) && SameIdOrFile(a, b))
  }

  function OnlyFile(file: nat): Selection {
    Selection({file}, {}, {})
  }

  lemma OnlyFileTakes(ops: seq<RawOp>, op: RawOp)
    requires op in ops && OnFile(op)
    ensures op in Applied(ops, OnlyFile(op.file.id))
  {
    hide KindOf;
    FilterMember(ops, (o: RawOp) => IsApplied(o, OnlyFile(op.file.id)), op);
  }

  lemma StaleConflicts(st: Store, ops: seq<RawOp>, stale: seq<PreviewItem>, op: RawOp)
    requires Shielded(ops) && op in ops && OnFile(op) && op.file.id in st.records
    requires BaseOf(stale, op.operationId).Some? && BaseOf(stale, op.operationId) != ChecksumOf(st, op.file.id)
    ensures ConflictTouches(PreviewList(st, ops, PreviewList(st, ops, stale)), Applied(ops, OnlyFile(op.file.id)))
  {
    hide Shielded, PreviewList, KindOf, Find, Filter, PreviewOf;
    var items := PreviewList(st, ops, stale);
    BaseIsKept(st, ops, stale, op);
    OnlyFileTakes(ops, op);
    BaseOfEntry(st, op, items);
    EntryIsListed(st, ops, items, op);
    var item := PreviewOf(st, op, items).value;
    EntryHasId(st, op, items);
    EntryConflicts(st, op, items);
    assert item in PreviewList(st, ops, items) && op.operationId == item.operationId;
  }

  lemma EntryConflicts(st: Store, op: RawOp, previous: seq<PreviewItem>)
    requires OnFile(op) && PreviewOf(st, op, previous).Some?
    requires op.file.id in st.records && BaseOf(previous, op.operationId).Some?
    ensures PreviewOf(st, op, previous).value.conflict <==> BaseOf(previous, op.operationId) != ChecksumOf(st, op.file.id)
  {
    hide KindOf, Find;
  }

  /** Nothing changes between the generation and an apply right after it. */
  lemma NothingChanged(st: Store, ops: seq<RawOp>, op: RawOp)
    requires op in ops
    ensures !Changed([Sight(st, ops)] + [Sight(st, ops)], st, op)
  {
    hide FirstShown, KindOf;
    if OnFile(op) {
      NextShown([Sight(st, ops)], st, ops, op);
      FirstShownOne(st, ops, op.operationId, op.file.id);
    }
  }

  lemma JustGenerated(env: Env, s: Session, p: Payload)
    requires Previewed(env, s.(patch := Some(p))).Ok?
    ensures var t := After(env, s, [GenerateAction(p)]);
      && t == s.(patch := Some(p), preview := PreviewList(s.work.store, Pending(Some(p)), s.preview))
      && SightsOf(env, s, [GenerateAction(p)]) == [Sight(s.work.store, Pending(Some(p)))]
      && Possible(env, s, [GenerateAction(p)])
  {
    hide Normalize, PreviewList, AllPreviewable;
    var one := [GenerateAction(p)];
    assert one[1..] == [];
    assert [Sight(s.work.store, Pending(Some(p)))] + [] == [Sight(s.work.store, Pending(Some(p)))];
  }

  lemma LooksAgain(env: Env, t: Session, op: RawOp)
    requires t.patch.Some? && Normalize(t.patch.value).Ok? && AllPreviewable(env, t.work.store, Pending(t.patch))
    requires op in Pending(t.patch) && OnFile(op)
    ensures LooksForConflicts(env, t, OnlyFile(op.file.id))
    ensures var own := EnvOf(env, t, OnlyFile(op.file.id));
      Previewed(own, t).value.preview == PreviewList(t.work.store, Pending(t.patch), t.preview)
  {
    hide Normalize, PreviewList, KindOf, SafeFilename, Filter;
    OnlyFileTakes(Pending(t.patch), op);
    var own := EnvOf(env, t, OnlyFile(op.file.id));
    forall i | 0 <= i < |Pending(t.patch)| ensures Previewable(own, t.work.store, Pending(t.patch)[i]) {
      assert Previewable(env, t.work.store, Pending(t.patch)[i]);
    }
  }

  lemma PatchPreviews(env: Env, s: Session, p: Payload)
    requires Previewed(env, s.(patch := Some(p))).Ok?
    ensures Normalize(p).Ok? && AllPreviewable(env, s.work.store, Pending(Some(p)))
  {
    hide Normalize, PreviewList, AllPreviewable;
  }

  lemma StaleIsRefused(env: Env, s: Session, p: Payload, op: RawOp)
    requires Guarded(Some(p)) && Previewed(env, s.(patch := Some(p))).Ok?
    requires op in Pending(Some(p)) && OnFile(op) && op.file.id in s.work.store.records
    requires BaseOf(s.preview, op.operationId).Some? && BaseOf(s.preview, op.operationId) != ChecksumOf(s.work.store, op.file.id)
    ensures !RefusesExactly(env, s, [GenerateAction(p)], OnlyFile(op.file.id))
  {
    hide Normalize, PreviewList, KindOf, Pending, Shielded, Find, Previewed, Apply, Filter, AllPreviewable, ConflictTouches, Changed,
      LooksForConflicts, After, SightsOf, Possible;
    var st, ops, actions, sel := s.work.store, Pending(Some(p)), [GenerateAction(p)], OnlyFile(op.file.id);
    var t := After(env, s, actions);
    JustGenerated(env, s, p);
    PatchPreviews(env, s, p);
    LooksAgain(env, t, op);
    RefusedOnTouch(env, t, sel);
    StaleConflicts(st, ops, s.preview, op);
    forall b | b in ops ensures !Changed(Looks(env, s, actions), st, b) {
      NothingChanged(st, ops, b);
    }
  }

  /** After a new patch on files that exist has replaced an older one, its applies are refused exactly for what has changed
      since the generation if and only if the old preview says nothing stale under its ids. */
  lemma {:induction false} StaleEntriesDecide(env: Env, s: Session, p: Payload)
    requires Guarded(Some(p)) && Previewed(env, s.(patch := Some(p))).Ok?
    requires forall op <- Pending(Some(p)) :: OnFile(op) ==> op.file.id in s.work.store.records
    ensures Unstale(s.work.store, Pending(Some(p)), s.preview) <==>
      forall actions, sel :: SamePatch(actions) ==> RefusesExactly(env, s, [GenerateAction(p)] + actions, sel)
  {
    hide Normalize, KindOf, Pending, Guarded, BaseOf, Previewed, RefusesExactly;
    if Unstale(s.work.store, Pending(Some(p)), s.preview) {
      forall actions, sel | SamePatch(actions) ensures RefusesExactly(env, s, [GenerateAction(p)] + actions, sel) {
        UnstaleRefuses(env, s, p, actions, sel);
      }
    } else {
      var op :| op in Pending(Some(p)) && OnFile(op) && BaseOf(s.preview, op.operationId).Some? &&
        BaseOf(s.preview, op.operationId) != ChecksumOf(s.work.store, op.file.id);
      StaleIsRefused(env, s, p, op);
      assert [GenerateAction(p)] + [] == [GenerateAction(p)];
      assert !RefusesExactly(env, s, [GenerateAction(p)] + [], OnlyFile(op.file.id));
    }
  }

  lemma UnstaleRefuses(env: Env, s: Session, p: Payload, actions: seq<Action>, sel: Selection)
    requires Guarded(Some(p)) && Previewed(env, s.(patch := Some(p))).Ok? && SamePatch(actions)
    requires Unstale(s.work.store, Pending(Some(p)), s.preview)
    ensures RefusesExactly(env, s, [GenerateAction(p)] + actions, sel)
  {
    hide Normalize, Pending, Guarded, Unstale, Previewed, Changed, Applied, Apply, After, Possible, LooksForConflicts, Looks;
    var all := [GenerateAction(p)] + actions;
    assert all[1..] == actions;
    if Possible(env, s, all) && LooksForConflicts(env, After(env, s, all), sel) {
      RefusedIffChanged(env, s, all, sel);
    }
  }
}
