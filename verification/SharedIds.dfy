// Operations that share an id: a preview keeps one base checksum per id, the one of the last entry with it
// (backend/services/agent/code_workspace.py, preview_patch_payload). When the bases stay those of the right files.
module SharedIds {
  import opened CodeSessions
  import opened EditScripts
  import opened PatchPayload
  import opened PatchSelection
  import opened Sublists
  import opened Workspace
  import opened WorkspacePreviews
  import opened Wrappers

  /** The operation names a file whose text it could overwrite. */
  predicate OnFile(op: RawOp) {
    KindOf(op) != Folder && op.file.FileId?
  }

  predicate OnSameFile(a: RawOp, b: RawOp) {
    OnFile(a) && OnFile(b) && a.operationId == b.operationId && a.file == b.file
  }

  /** An entry of `op` under the id of an operation on `file` is no entry for that file. */
  predicate Hides(op: RawOp, file: nat) {
    KindOf(op) == Folder || (KindOf(op) == Create && !op.file.FileId?) || (op.file.FileId? && op.file.id != file)
  }

  predicate SameWanted(a: RawOp, b: RawOp) {
    a.content == b.content && (a.content == [] ==> (KindOf(a) == Rename <==> KindOf(b) == Rename))
  }

  /** A selection of hunks that applies `b` in full applies `a` in full. */
  predicate LeavesWith(a: RawOp, b: RawOp) {
    HasText(a) ==> HasText(b) && SameWanted(a, b)
  }

  /** `l` stays pending as long as both `i` and `k` do. */
  predicate Shields(i: RawOp, k: RawOp, l: RawOp) {
    OnSameFile(i, l) && (KindOf(k) == Folder || LeavesWith(i, l))
  }

  ghost predicate ShieldedAt(ops: seq<RawOp>, i: nat, k: nat)
    requires i < |ops| && k < |ops|
  {
    exists l :: k < l < |ops| && Shields(ops[i], ops[k], ops[l])
  }

  predicate Threatens(i: RawOp, k: RawOp) {
    OnFile(i) && k.operationId == i.operationId && Hides(k, i.file.id)
  }

  /** Whatever comes later under the id of an operation on a file, and is not on that file, is followed by another operation
      on it that stays as long. */
  ghost predicate Shielded(ops: seq<RawOp>) {
    forall i, k :: 0 <= i < k < |ops| && Threatens(ops[i], ops[k]) ==> ShieldedAt(ops, i, k)
  }

  /** Distinct ids are enough. */
  lemma UniqueIsShielded(ops: seq<RawOp>)
    requires UniqueIds(ops)
    ensures Shielded(ops)
  {
    hide KindOf, Hides, OnFile;
  }

  /** So is one file per id. */
  lemma OneFilePerIdIsShielded(ops: seq<RawOp>)
    requires forall i, k :: 0 <= i < k < |ops| && ops[i].operationId == ops[k].operationId && OnFile(ops[i]) ==>
               KindOf(ops[k]) != Folder && ops[k].file == ops[i].file
    ensures Shielded(ops)
  {
    hide KindOf;
  }

  /** A folder under the id does no harm between two operations on the file. */
  lemma FolderBetweenIsShielded(first: RawOp, folder: RawOp, last: RawOp)
    requires OnSameFile(first, last) && KindOf(folder) == Folder
    ensures Shielded([first, folder, last])
  {
    hide KindOf;
    var ops := [first, folder, last];
    forall i, k | 0 <= i < k < |ops| && Threatens(ops[i], ops[k]) ensures ShieldedAt(ops, i, k) {
      assert Shields(ops[0], ops[1], ops[2]);
    }
  }

  // ----- One file per id -----

  lemma {:induction false} LastOnFile(ops: seq<RawOp>, id: string, n: nat) returns (m: nat)
    requires n <= |ops| && exists i :: 0 <= i < n && OnFile(ops[i]) && ops[i].operationId == id
    ensures m < n && OnFile(ops[m]) && ops[m].operationId == id
    ensures forall j :: m < j < n && OnFile(ops[j]) ==> ops[j].operationId != id
  {
    hide OnFile;
    if OnFile(ops[n - 1]) && ops[n - 1].operationId == id {
      m := n - 1;
    } else {
      m := LastOnFile(ops, id, n - 1);
    }
  }

  lemma FileOfLast(ops: seq<RawOp>, i: nat, m: nat)
    requires Shielded(ops) && i < |ops| && m < |ops| && OnFile(ops[i]) && OnFile(ops[m])
    requires ops[i].operationId == ops[m].operationId
    requires forall j :: m < j < |ops| && OnFile(ops[j]) ==> ops[j].operationId != ops[m].operationId
    ensures ops[i].file == ops[m].file
  {
    hide KindOf;
    assert i < m ==> !Threatens(ops[i], ops[m]);
  }

  lemma OneFile(ops: seq<RawOp>, a: RawOp, b: RawOp)
    requires Shielded(ops) && a in ops && b in ops && OnFile(a) && OnFile(b) && a.operationId == b.operationId
    ensures a.file == b.file
  {
    hide Shielded, OnFile;
    var i :| 0 <= i < |ops| && ops[i] == a;
    var j :| 0 <= j < |ops| && ops[j] == b;
    var m := LastOnFile(ops, a.operationId, |ops|);
    FileOfLast(ops, i, m);
    FileOfLast(ops, j, m);
  }

  // ----- The base a preview keeps -----

  function BaseOf(items: seq<PreviewItem>, id: string): Option<Checksum> {
    var own := Find(items, id);
    if own.Some? then own.value.base else None
  }

  /** The checksum the file has, if there is one. */
  function ChecksumOf(st: Store, file: nat): Option<Checksum> {
    if file in st.records then Some(st.records[file].checksum) else None
  }

  function Known(base: Option<Checksum>, now: Option<Checksum>): Option<Checksum> {
    if base.Some? then base else now
  }

  lemma NotListedWithoutEntry(st: Store, ops: seq<RawOp>, previous: seq<PreviewItem>, id: string)
    requires forall op <- ops :: op.operationId == id ==> PreviewOf(st, op, previous).None?
    ensures Find(PreviewList(st, ops, previous), id) == None
  {
    hide Find, PreviewOf, KindOf;
    var items := PreviewList(st, ops, previous);
    if Find(items, id).Some? {
      var op := ItemHasOp(st, ops, previous, Find(items, id).value);
      EntryHasId(st, op, previous);
    }
  }

  lemma EntryHasId(st: Store, op: RawOp, previous: seq<PreviewItem>)
    ensures PreviewOf(st, op, previous).Some? ==> PreviewOf(st, op, previous).value.operationId == op.operationId
  {
    hide Find, KindOf;
  }

  /** The last operation with the id that has an entry is the one found. */
  lemma {:induction false} LastEntry(st: Store, ops: seq<RawOp>, previous: seq<PreviewItem>, k: nat)
    requires k < |ops| && PreviewOf(st, ops[k], previous).Some?
    requires forall j :: k < j < |ops| && ops[j].operationId == ops[k].operationId ==> PreviewOf(st, ops[j], previous).None?
    ensures Find(PreviewList(st, ops, previous), ops[k].operationId) == PreviewOf(st, ops[k], previous)
  {
    hide Find, KindOf, PreviewOf;
    var n := |ops| - 1;
    var front, last := ops[..n], PreviewOf(st, ops[n], previous);
    var items := PreviewList(st, front, previous);
    EntryHasId(st, ops[n], previous);
    if last.Some? {
      FindAppended(items, last.value, ops[k].operationId);
    } else {
      assert items + [] == items;
    }
    if k < n {
      assert front[k] == ops[k];
      LastEntry(st, front, previous, k);
    }
  }

  lemma {:induction false} EntryPlace(st: Store, ops: seq<RawOp>, previous: seq<PreviewItem>, id: string, n: nat) returns (k: nat)
    requires n <= |ops| && exists j :: 0 <= j < n && ops[j].operationId == id && PreviewOf(st, ops[j], previous).Some?
    ensures k < n && ops[k].operationId == id && PreviewOf(st, ops[k], previous).Some?
    ensures forall j :: k < j < n && ops[j].operationId == id ==> PreviewOf(st, ops[j], previous).None?
  {
    hide PreviewOf;
    if ops[n - 1].operationId == id && PreviewOf(st, ops[n - 1], previous).Some? {
      k := n - 1;
    } else {
      k := EntryPlace(st, ops, previous, id, n - 1);
    }
  }

  lemma BaseOfEntry(st: Store, op: RawOp, previous: seq<PreviewItem>)
    ensures var r := PreviewOf(st, op, previous);
      && (r.Some? && KindOf(op) == Folder ==> r.value.base == None)
      && (r.Some? && KindOf(op) != Folder ==> r.value.base == Known(BaseOf(previous, op.operationId), CurrentChecksum(st, op)))
      && (OnFile(op) ==> CurrentChecksum(st, op) == ChecksumOf(st, op.file.id))
      && (!OnFile(op) ==> r.None? || KindOf(op) == Folder || (KindOf(op) == Create && CurrentChecksum(st, op) == None))
      && (OnFile(op) && op.file.id in st.records ==> r.Some?)
  {
    hide KindOf, Find;
  }

  /** Under the id of an operation on a file, the base kept is the one kept so far, or else the checksum of the file now. */
  lemma BaseIsKept(st: Store, ops: seq<RawOp>, previous: seq<PreviewItem>, op: RawOp)
    requires Shielded(ops) && op in ops && OnFile(op)
    requires BaseOf(previous, op.operationId).Some? ==> op.file.id in st.records
    ensures BaseOf(PreviewList(st, ops, previous), op.operationId) ==
      Known(BaseOf(previous, op.operationId), ChecksumOf(st, op.file.id))
  {
    hide PreviewList, PreviewOf, Shielded, KindOf, Find;
    var id := op.operationId;
    var i :| 0 <= i < |ops| && ops[i] == op;
    BaseOfEntry(st, op, previous);
    if forall o <- ops :: o.operationId == id ==> PreviewOf(st, o, previous).None? {
      NotListedWithoutEntry(st, ops, previous, id);
    } else {
      var k := EntryPlace(st, ops, previous, id, |ops|);
      LastEntry(st, ops, previous, k);
      BaseOfEntry(st, ops[k], previous);
      LastIsOnFile(st, ops, previous, i, k);
      if OnFile(ops[k]) {
        OneFile(ops, op, ops[k]);
      }
    }
  }

  /** When the file is there, the last operation with an entry is on it. */
  lemma LastIsOnFile(st: Store, ops: seq<RawOp>, previous: seq<PreviewItem>, i: nat, k: nat)
    requires Shielded(ops) && i < |ops| && k < |ops| && OnFile(ops[i]) && ops[k].operationId == ops[i].operationId
    requires PreviewOf(st, ops[k], previous).Some?
    requires forall j :: k < j < |ops| && ops[j].operationId == ops[k].operationId ==> PreviewOf(st, ops[j], previous).None?
    ensures ops[i].file.id in st.records ==> OnFile(ops[k])
  {
    hide PreviewOf, KindOf, Find, LeavesWith;
    BaseOfEntry(st, ops[i], previous);
    BaseOfEntry(st, ops[k], previous);
    if ops[i].file.id in st.records && !OnFile(ops[k]) {
      assert i < k && Threatens(ops[i], ops[k]);
      var l :| k < l < |ops| && Shields(ops[i], ops[k], ops[l]);
      BaseOfEntry(st, ops[l], previous);
    }
  }

  /** Every entry under the id names that file or none. */
  lemma EntriesNameFile(st: Store, ops: seq<RawOp>, previous: seq<PreviewItem>, op: RawOp, item: PreviewItem)
    requires Shielded(ops) && op in ops && OnFile(op)
    requires item in PreviewList(st, ops, previous) && item.operationId == op.operationId && item.file.Some?
    ensures item.file == Some(op.file.id)
  {
    hide Shielded, KindOf, Find;
    var other := ItemHasOp(st, ops, previous, item);
    OneFile(ops, op, other);
  }

  // ----- Parts of a patch -----

  lemma SameTargetsAgree(a: RawOp, b: RawOp)
    requires SameTargets(a, b)
    ensures KindOf(a) == KindOf(b) && (OnFile(a) <==> OnFile(b)) && (HasText(a) <==> HasText(b))
  {
  }

  /** What stays of a group keeps its shields. */
  ghost predicate KeepsShields(ops: seq<RawOp>, p: RawOp -> bool) {
    forall i <- ops, k <- ops, l <- ops :: Threatens(i, k) && Shields(i, k, l) && p(i) && p(k) ==> p(l)
  }

  lemma FilterShielded(ops: seq<RawOp>, p: RawOp -> bool)
    requires Shielded(ops) && KeepsShields(ops, p)
    ensures Shielded(Filter(ops, p))
  {
    hide Filter, Threatens, Shields;
    var part := Filter(ops, p);
    var at := FilterPlaces(ops, p);
    forall i, k | 0 <= i < k < |part| && Threatens(part[i], part[k]) ensures ShieldedAt(part, i, k) {
      assert at[i] < at[k] && p(ops[at[i]]) && p(ops[at[k]]) by {
        assert at[i] in at && at[k] in at;
      }
      var l :| at[k] < l < |ops| && Shields(ops[at[i]], ops[at[k]], ops[l]);
      assert p(ops[l]);
      var m :| 0 <= m < |at| && at[m] == l;
      AfterPlace(at, k, m);
      assert part[m] == ops[l];
    }
  }

  lemma AfterPlace(at: seq<nat>, k: nat, m: nat)
    requires k < |at| && m < |at| && at[k] < at[m] && forall i, j :: 0 <= i < j < |at| ==> at[i] < at[j]
    ensures k < m
  {
  }

  lemma SameTargetsShielded(ops: seq<RawOp>, part: seq<RawOp>)
    requires Shielded(ops) && |part| == |ops| && forall i :: 0 <= i < |ops| ==> SameTargets(ops[i], part[i])
    ensures Shielded(part)
  {
    hide KindOf;
    forall op: RawOp, other: RawOp | SameTargets(op, other) {
      SameTargetsAgree(op, other);
    }
    forall i, k | 0 <= i < k < |part| && Threatens(part[i], part[k]) ensures ShieldedAt(part, i, k) {
      assert Threatens(ops[i], ops[k]);
      var l :| k < l < |ops| && Shields(ops[i], ops[k], ops[l]);
      assert Shields(part[i], part[k], part[l]);
    }
  }

  lemma UnpickedKeepsShields(ops: seq<RawOp>, files: set<nat>, ids: set<string>)
    ensures KeepsShields(ops, (op: RawOp) => !Picked(op, files, ids))
  {
    hide KindOf;
  }

  /** Operations on one file with the same wanted text are fully selected together. */
  lemma SelectedTogether(env: Env, st: Store, a: RawOp, b: RawOp)
    requires OnSameFile(a, b) && LeavesWith(a, b) && FullySelected(env, st, b)
    ensures FullySelected(env, st, a)
  {
    hide KindOf, HunkName;
    if HasText(a) {
      assert OldText(env, st, a) == OldText(env, st, b);
      SameWantedText(a, b, OldText(env, st, a));
      assert ScriptOf(env, st, a) == ScriptOf(env, st, b);
      SameHunkNames(st, a, b);
      var i :| 0 <= i < HunkCount(ScriptOf(env, st, b)) && PendingHunk(env, st, b, i);
      assert PendingHunk(env, st, a, i);
      forall j | 0 <= j < HunkCount(ScriptOf(env, st, a)) && PendingHunk(env, st, a, j)
        ensures HunkName(a, Owner(st, a), j) in env.selected
      {
        assert PendingHunk(env, st, b, j);
      }
    }
  }

  lemma SameWantedText(a: RawOp, b: RawOp, before: Lines)
    requires HasText(a) && HasText(b) && SameWanted(a, b)
    ensures Wanted(a, before) == Wanted(b, before)
  {
    hide KindOf;
  }

  lemma SameHunkNames(st: Store, a: RawOp, b: RawOp)
    requires OnSameFile(a, b)
    ensures Owner(st, a) == Owner(st, b) && forall i: nat :: HunkName(a, Owner(st, a), i) == HunkName(b, Owner(st, b), i)
  {
    hide KindOf;
  }

  lemma LeftKeepsShields(env: Env, st: Store, ops: seq<RawOp>, sel: Selection)
    ensures KeepsShields(ops, (op: RawOp) => IsLeft(op, sel, Whole(env, st)))
  {
    hide KindOf, HasSelectedHunk, FullySelected, HasText, SameWanted;
    var whole := Whole(env, st);
    forall i, k, l | i in ops && k in ops && l in ops && Threatens(i, k) && Shields(i, k, l) && IsLeft(i, sel, whole) &&
        IsLeft(k, sel, whole)
      ensures IsLeft(l, sel, whole)
    {
      SameHunkPrefix(i, k, sel.hunks);
      SameHunkPrefix(i, l, sel.hunks);
      if HasSelectedHunk(i, sel.hunks) {
        FolderIsWhole(env, st, k);
        if whole(l) {
          SelectedTogether(env, st, i, l);
        }
      }
    }
  }

  lemma SameHunkPrefix(a: RawOp, b: RawOp, hunks: set<string>)
    requires a.operationId == b.operationId
    ensures HasSelectedHunk(a, hunks) <==> HasSelectedHunk(b, hunks)
  {
  }

  lemma FolderIsWhole(env: Env, st: Store, op: RawOp)
    ensures KindOf(op) == Folder ==> FullySelected(env, st, op)
  {
  }
}
