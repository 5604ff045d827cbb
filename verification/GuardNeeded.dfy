// When a pending patch keeps every change from being overwritten: the exact condition on its ids
// (backend/services/agent/code_workspace.py, preview_patch_payload, reject_patch_payload and apply_patch_payload).
module GuardNeeded {
  import opened CodeSessions
  import opened EditScripts
  import opened LostUpdates
  import opened MissedByFileItems
  import opened MissedByHunks
  import opened MissedUpdates
  import opened PatchPayload
  import opened PatchSelection
  import opened SessionRuns
  import opened SharedIds
  import opened ShownEntries
  import opened Strings
  import opened Sublists
  import opened Workspace
  import opened Wrappers

  // ----- Where the condition fails -----

  lemma ShieldedByItsId(ops: seq<RawOp>, i: nat, k: nat)
    requires i < k < |ops| && Threatens(ops[i], ops[k]) && Shielded(WithId(ops, ops[i].operationId))
    ensures ShieldedAt(ops, i, k)
  {
    hide Filter, Shields, Threatens;
    SameIdThreat(ops[i], ops[k]);
    var id := ops[i].operationId;
    var group := WithId(ops, id);
    var at := FilterPlaces(ops, (op: RawOp) => op.operationId == id);
    var a :| 0 <= a < |at| && at[a] == i;
    var b :| 0 <= b < |at| && at[b] == k;
    AfterPlace(at, a, b);
    assert ShieldedAt(group, a, b);
    var c :| b < c < |group| && Shields(group[a], group[b], group[c]);
    assert Shields(ops[i], ops[k], ops[at[c]]);
  }

  lemma SameIdThreat(i: RawOp, k: RawOp)
    requires Threatens(i, k)
    ensures i.operationId == k.operationId && OnFile(i)
  {
  }

  /** Some id alone is to blame. */
  lemma UnshieldedId(ops: seq<RawOp>) returns (op: RawOp)
    requires !Shielded(ops)
    ensures op in ops && !Shielded(WithId(ops, op.operationId))
  {
    hide Threatens, ShieldedAt, WithId;
    var i, k :| 0 <= i < k < |ops| && Threatens(ops[i], ops[k]) && !ShieldedAt(ops, i, k);
    op := ops[i];
    if Shielded(WithId(ops, op.operationId)) {
      ShieldedByItsId(ops, i, k);
    }
  }

  /** The last operation that can have an entry comes after every other one. */
  lemma LastMaker(ops: seq<RawOp>, id: string, k: nat) returns (m: nat)
    requires k < |ops| && ops[k].operationId == id && MakesEntry(ops[k])
    ensures k <= m < |ops| && var makers := Makers(ops, id); makers != [] && ops[m] == makers[|makers| - 1]
  {
    hide Filter, MakesEntry;
    var at := FilterPlaces(ops, (op: RawOp) => op.operationId == id && MakesEntry(op));
    var a :| 0 <= a < |at| && at[a] == k;
    m := at[|at| - 1];
  }

  lemma HidingMakesEntry(op: RawOp, file: nat)
    requires Hides(op, file)
    ensures MakesEntry(op)
  {
  }

  /** In a group that is not shielded, the last entry is none of some operation's file, or a creation tears the group. */
  lemma UnshieldedGroup(ops: seq<RawOp>, id: string) returns (i: nat, k: nat)
    requires !Shielded(ops) && forall op <- ops :: op.operationId == id
    ensures i < |ops|
    ensures EndsElsewhere(ops, ops[i]) || (Torn(ops, i, k) && forall op <- ops :: OnFile(op) ==> op.file == ops[i].file)
  {
    hide Makers, KindOf, HasText, LeavesWith;
    i, k :| 0 <= i < k < |ops| && Threatens(ops[i], ops[k]) && !ShieldedAt(ops, i, k);
    HidingMakesEntry(ops[k], ops[i].file.id);
    var m := LastMaker(ops, id, k);
    if exists j :: 0 <= j < |ops| && OnFile(ops[j]) && (!OnFile(ops[m]) || ops[m].file != ops[j].file) {
      i :| 0 <= i < |ops| && OnFile(ops[i]) && (!OnFile(ops[m]) || ops[m].file != ops[i].file);
    } else {
      UnshieldedIsTorn(ops, i, k, m);
    }
  }

  lemma UnshieldedIsTorn(ops: seq<RawOp>, i: nat, k: nat, m: nat)
    requires i < k <= m < |ops| && Threatens(ops[i], ops[k]) && !ShieldedAt(ops, i, k)
    requires forall op <- ops :: op.operationId == ops[i].operationId
    requires forall j :: 0 <= j < |ops| && OnFile(ops[j]) ==> OnFile(ops[m]) && ops[m].file == ops[j].file
    ensures Torn(ops, i, k) && forall op <- ops :: OnFile(op) ==> op.file == ops[i].file
  {
    hide SameWanted;
    assert OnFile(ops[i]) && OnFile(ops[m]) && OnSameFile(ops[i], ops[m]);
    assert !OnFile(ops[k]);
    assert !Shields(ops[i], ops[k], ops[m]);
    forall l | k < l < |ops| && OnSameFile(ops[i], ops[l]) ensures !LeavesWith(ops[i], ops[l]) {
      assert !Shields(ops[i], ops[k], ops[l]);
    }
  }

  /** A folder under the id of a file's operation is enough. */
  lemma {:induction false} FolderHidesFile(env: Env, s: Session) returns (actions: seq<Action>)
    requires Ready(env, s) && s.preview == [] && !FilesShaped(s.patch.value)
    requires var ops := Pending(s.patch);
      && |ops| == 2 && OnFile(ops[0]) && KindOf(ops[1]) == Folder && ops[1].operationId == ops[0].operationId
      && !Blank(ops[0].operationId)
    ensures var op := Pending(s.patch)[0]; op.file.FileId? && Misses(env, s, actions, OnlyFile(op.file.id), op)
  {
    hide Pending, Blank, Ready, Misses, FilesShaped, Makers, KindOf;
    var ops := Pending(s.patch);
    var id := ops[0].operationId;
    assert ops == ([] + [ops[0]]) + [ops[1]];
    MakersSnoc([], ops[0], id);
    MakersSnoc([] + [ops[0]], ops[1], id);
    NoMakers(id);
    FolderMakesEntry(ops[0], ops[1]);
    actions := SharedIdMisses(env, s, ops[0]);
  }

  lemma FolderMakesEntry(op: RawOp, folder: RawOp)
    requires OnFile(op) && KindOf(folder) == Folder
    ensures MakesEntry(op) && MakesEntry(folder) && !OnFile(folder) && op.file.FileId?
  {
  }

  // ----- The condition is needed -----

  ghost predicate TextDivides(env: Env, ops: seq<RawOp>, i: nat, k: nat, text: Lines)
    requires i < |ops|
  {
    env.read(NAME, text).Some? && Divides(env, ops, i, k, env.read(NAME, text).value)
  }

  /** Where a creation tears the operations with one id, they can all be applied, and the matcher divides some text. */
  ghost predicate Dividable(env: Env, ops: seq<RawOp>) {
    forall i, k :: Torn(ops, i, k) ==> (forall op <- ops :: Complete(op)) && exists text :: TextDivides(env, ops, i, k, text)
  }

  ghost predicate AllDividable(env: Env, ops: seq<RawOp>) {
    forall op <- ops :: Dividable(env, WithId(ops, op.operationId))
  }

  lemma GroupMisses(env: Env, s: Session, id: string) returns (actions: seq<Action>, sel: Selection, op: RawOp)
    requires Ready(env, s) && s.preview == [] && !Shielded(Pending(s.patch)) && Dividable(env, Pending(s.patch))
    requires forall o <- Pending(s.patch) :: o.operationId == id
    ensures Misses(env, s, actions, sel, op)
  {
    hide Pending, Shielded, EndsElsewhere, Torn, Complete, OnFile, Misses, Normalize, Workable;
    var ops := Pending(s.patch);
    var i, k := UnshieldedGroup(ops, id);
    op := ops[i];
    if EndsElsewhere(ops, op) {
      ElsewhereOnFile(ops, op);
      sel := OnlyFile(op.file.id);
      actions := ElsewhereIsMissed(env, s, op);
    } else {
      var text :| TextDivides(env, ops, i, k, text);
      TornIsOnFile(ops, i, k);
      sel := OnlyFile(op.file.id);
      actions := TornIsMissed(env, s, i, k, text);
    }
  }

  lemma ElsewhereOnFile(ops: seq<RawOp>, op: RawOp)
    requires EndsElsewhere(ops, op)
    ensures OnFile(op) && op.file.FileId?
  {
  }

  lemma UnshieldedFileItems(ops: seq<RawOp>) returns (op: RawOp)
    requires Modifies(ops) && !Shielded(ops)
    ensures op in ops && EndsElsewhere(ops, op)
  {
    hide KindOf, LeavesWith, WithId, HasText;
    var i, k :| 0 <= i < k < |ops| && Threatens(ops[i], ops[k]) && !ShieldedAt(ops, i, k);
    FileItemIsModify(ops[k]);
    HidingMakesEntry(ops[k], ops[i].file.id);
    var m := LastMaker(ops, ops[i].operationId, k);
    op := if OnFile(ops[m]) && ops[m].file == ops[i].file then ops[k] else ops[i];
  }

  /** For a patch whose operations can be worked on, and whose ids are not blank: where the ids do not last, or shared ones do
      not keep to their files, some run ends in an apply that takes a file that has changed since it was first shown. */
  lemma {:induction false} GuardIsNeeded(env: Env, s: Session) returns (actions: seq<Action>, sel: Selection, op: RawOp)
    requires Ready(env, s) && s.preview == [] && !Guarded(s.patch)
    requires forall o <- Pending(s.patch) :: !Blank(o.operationId)
    requires FilesShaped(s.patch.value) ==> AllObjects(s.patch.value.files)
    requires AllDividable(env, Pending(s.patch))
    ensures Misses(env, s, actions, sel, op)
  {
    hide Pending, Shielded, Misses, Normalize, Workable, Blank, KindOf, HasOwnId, FilesShaped, EndsElsewhere, Dividable, Narrows,
      NormalizeItems, FileOps, ReadsAll;
    if !FilesShaped(s.patch.value) {
      var culprit := UnshieldedId(Pending(s.patch));
      var prefix := NarrowOps(env, s, culprit);
      GroupIds(Pending(s.patch), culprit.operationId);
      var rest;
      rest, sel, op := GroupMisses(env, After(env, s, prefix), culprit.operationId);
      MissesLater(env, s, prefix, rest, sel, op);
      actions := prefix + rest;
    } else if AllOwnIds(s.patch.value.files) {
      ReadyReads(env, s);
      FileItemsModify(s.patch.value.files, 0);
      op := UnshieldedFileItems(Pending(s.patch));
      ElsewhereOnFile(Pending(s.patch), op);
      sel := OnlyFile(op.file.id);
      actions := SharedFileIdMisses(env, s, op);
    } else {
      var i :| 0 <= i < |s.patch.value.files| && !HasOwnId(s.patch.value.files[i].value);
      actions, op := GeneratedIdMisses(env, s, i);
      sel := OnlyFile(op.file.id);
    }
  }

  lemma GroupIds(ops: seq<RawOp>, id: string)
    ensures forall op <- WithId(ops, id) :: op.operationId == id
  {
    hide Filter;
    forall op | op in WithId(ops, id) ensures op.operationId == id {
      WithIdMember(ops, id, op);
    }
  }

  /** So the condition is exact: no run misses a change if and only if the patch is guarded. */
  lemma {:induction false} GuardDecides(env: Env, s: Session)
    requires Ready(env, s) && s.preview == []
    requires forall o <- Pending(s.patch) :: !Blank(o.operationId)
    requires FilesShaped(s.patch.value) ==> AllObjects(s.patch.value.files)
    requires AllDividable(env, Pending(s.patch))
    ensures Guarded(s.patch) <==> forall actions, sel, op :: !Misses(env, s, actions, sel, op)
  {
    hide Pending, Guarded, Misses, Normalize, Workable, Blank, ReadsAll, FilesShaped, AllDividable;
    if Guarded(s.patch) {
      forall actions, sel, op ensures !Misses(env, s, actions, sel, op) {
        GuardedMissesNothing(env, s, actions, sel, op);
      }
    } else {
      var actions, sel, op := GuardIsNeeded(env, s);
    }
  }

  lemma GuardedMissesNothing(env: Env, s: Session, actions: seq<Action>, sel: Selection, op: RawOp)
    requires s.preview == [] && Guarded(s.patch)
    ensures !Misses(env, s, actions, sel, op)
  {
    hide Pending, Guarded, Apply, After, Possible, FirstShown, Looks, KindOf, Enabled;
    if Misses(env, s, actions, sel, op) {
      NoLostUpdate(env, s, actions, sel);
    }
  }
}
