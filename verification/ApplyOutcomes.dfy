// What one call of a session comes to: which operations an apply takes, why it is refused, what it leaves, and what becomes
// of the undo stack (backend/services/agent/code_workspace.py).
module ApplyOutcomes {
  import opened CodeSessions
  import opened Decimal
  import opened PatchPayload
  import opened PatchSelection
  import opened Strings
  import opened Sublists
  import opened Workspace
  import opened WorkspaceEffects
  import opened WorkspaceFailures
  import opened WorkspaceFiles
  import opened WorkspacePreviews
  import opened Wrappers

  // ----- What a selection takes -----

  predicate AllMeant(sel: Selection) {
    sel.files == {} && sel.ids == {} && sel.hunks == {}
  }

  /** The operation is named by its file or its id. */
  predicate NamedIn(op: RawOp, sel: Selection) {
    (exists id <- sel.files :: op.file == FileId(id)) || exists id <- sel.ids :: op.operationId == id
  }

  /** The hunk's name is the operation's id, a dash and more. */
  predicate HunkOfOp(hunk: string, op: RawOp) {
    var n := |op.operationId|;
    n < |hunk| && hunk[..n] == op.operationId && hunk[n] == '-'
  }

  predicate HunkIn(op: RawOp, sel: Selection) {
    exists hunk <- sel.hunks :: HunkOfOp(hunk, op)
  }

  predicate Meant(op: RawOp, sel: Selection) {
    AllMeant(sel) || NamedIn(op, sel) || HunkIn(op, sel)
  }

  lemma StartsWithDash(h: string, id: string)
    ensures StartsWith(h, id + "-") <==> |id| < |h| && h[..|id|] == id && h[|id|] == '-'
  {
    var n := |id|;
    if n < |h| {
      assert h[..n + 1] == h[..n] + [h[n]];
      assert (id + "-")[..n] == id && (id + "-")[n] == '-';
    }
  }

  lemma HunkInIff(op: RawOp, sel: Selection)
    ensures HunkIn(op, sel) <==> HasSelectedHunk(op, sel.hunks)
  {
    forall h: string {
      StartsWithDash(h, op.operationId);
    }
  }

  lemma MeantIff(op: RawOp, sel: Selection)
    ensures Meant(op, sel) <==> IsApplied(op, sel)
    ensures NamedIn(op, sel) <==> Picked(op, sel.files, sel.ids)
  {
    hide HunkIn, HasSelectedHunk;
    HunkInIff(op, sel);
  }

  /** What stands for the file in the names of its hunks. */
  function OwnerText(owner: Option<nat>): string {
    if owner.Some? then Format(owner.value) else "new"
  }

  lemma NoDash(owner: Option<nat>)
    ensures forall i :: 0 <= i < |OwnerText(owner)| ==> OwnerText(owner)[i] != '-'
  {
    if owner.Some? {
      assert AllDigits(Format(owner.value));
    }
  }

  lemma DashesOfHunk(op: RawOp, owner: Option<nat>, n: nat, m: nat)
    requires |op.operationId| < m < |HunkName(op, owner, n)| && HunkName(op, owner, n)[m] == '-'
    ensures m == |op.operationId| + 1 + |OwnerText(owner)|
  {
    hide Format;
    NoDash(owner);
    assert AllDigits(Format(n));
    var id, o, f := op.operationId, OwnerText(owner), Format(n);
    var h := HunkName(op, owner, n);
    assert h == id + "-" + o + "-" + f;
    assert forall k :: |id| < k < |id| + 1 + |o| ==> h[k] == o[k - |id| - 1];
    assert forall k :: |id| + 1 + |o| < k < |h| ==> h[k] == f[k - |id| - 2 - |o|];
  }

  /** A hunk selects its own operation, every one whose id its own goes on from with a dash, and the one whose id goes on from
      its own with the text of the file. */
  lemma {:induction false} ForeignHunk(op: RawOp, other: RawOp, owner: Option<nat>, n: nat)
    ensures HunkOfOp(HunkName(op, owner, n), other) <==>
      || other.operationId == op.operationId
      || (&& |other.operationId| < |op.operationId| && op.operationId[..|other.operationId|] == other.operationId
          && op.operationId[|other.operationId|] == '-')
      || other.operationId == op.operationId + "-" + OwnerText(owner)
  {
    hide Format;
    var h, id, m, o := HunkName(op, owner, n), op.operationId, |other.operationId|, OwnerText(owner);
    assert h == id + "-" + o + ("-" + Format(n));
    assert h[..|id|] == id && h[|id|] == '-';
    assert h[..|id| + 1 + |o|] == id + "-" + o && h[|id| + 1 + |o|] == '-';
    if m <= |id| {
      assert h[..m] == id[..m];
    } else if HunkOfOp(h, other) {
      DashesOfHunk(op, owner, n, m);
    }
  }

  // ----- Refusals -----

  /** The text of a file that only a hunk selects cannot be read. */
  predicate HunkUnreadable(env: Env, st: Store, op: RawOp, sel: Selection) {
    && !NamedIn(op, sel) && HunkIn(op, sel) && op.typ != "delete" && op.typ != "folder"
    && (op.file.BadFile? || (op.file.FileId? && op.file.id in st.records && st.records[op.file.id].status == Active
                             && Read(env, st, op.file.id).None?))
  }

  lemma HunkUnreadableIff(env: Env, st: Store, ops: seq<RawOp>, sel: Selection)
    ensures SelectionFails(env, st, ops, sel) <==> !AllMeant(sel) && exists op <- ops :: HunkUnreadable(env, st, op, sel)
  {
    hide HunkUnreadable, HasText, Picked, HasSelectedHunk, Readable;
    forall op | op in ops
      ensures HunkUnreadable(env, st, op, sel) <==>
        !Picked(op, sel.files, sel.ids) && HasSelectedHunk(op, sel.hunks) && HasText(op)
        && (op.file.BadFile? || !Readable(env, st, op))
    {
      OneUnreadable(env, st, op, sel);
    }
  }

  lemma OneUnreadable(env: Env, st: Store, op: RawOp, sel: Selection)
    ensures HunkUnreadable(env, st, op, sel) <==>
      !Picked(op, sel.files, sel.ids) && HasSelectedHunk(op, sel.hunks) && HasText(op)
      && (op.file.BadFile? || !Readable(env, st, op))
  {
    hide HunkIn, HasSelectedHunk, Read;
    HunkInIff(op, sel);
    MeantIff(op, sel);
  }

  /** Records, places, folders, undo stack, patch and verdicts are as before. */
  predicate FilesAndPatchKept(s: Session, s': Session) {
    && s'.work.store.records == s.work.store.records && s'.work.store.fileIds == s.work.store.fileIds
    && s'.work.store.folders == s.work.store.folders && s'.work.snapshots == s.work.snapshots
    && s'.patch == s.patch && s'.rejected == s.rejected
  }

  lemma TakesIff(ops: seq<RawOp>, sel: Selection, op: RawOp)
    ensures op in Applied(ops, sel) <==> op in ops && Meant(op, sel)
  {
    MeantIff(op, sel);
    FilterMember(ops, (o: RawOp) => IsApplied(o, sel), op);
  }

  /**
   * An apply that is refused says why. Without a patch, with one that cannot be read, with a selection that means none of its
   * operations or with a hunk whose file cannot be read nothing changes; a conflict or a preview that fails changes at most
   * the preview; an apply that fails changes no record, no place, no folder, nor the stack, the patch or the verdicts.
   */
  lemma {:induction false} ApplyRefused(base: Env, s: Session, sel: Selection, allow: bool)
    ensures var (s', r) := Apply(base, s, sel, allow);
      && (r == Err(NoPatch) <==> s.patch.None?)
      && (r == Err(BadPatch) ==> s.patch.Some? && Normalize(s.patch.value).Err?)
      && (s.patch.Some? && Normalize(s.patch.value).Err? ==> r == Err(BadPatch))
      && (r.Err? && r.error in {NoPatch, BadPatch, NotAvailable, Unreadable} ==> s' == s)
      && (r == Err(Conflict) ==> !allow && s' == s.(preview := s'.preview))
      && (r.Err? ==> FilesAndPatchKept(s, s'))
  {
    hide Normalize, SelectionFails, Applied, Left, PreviewAll, ApplyAll, ConflictTouches, NothingSelected;
  }

  lemma {:induction false} ApplyUnavailable(base: Env, s: Session, sel: Selection, allow: bool)
    requires s.patch.Some? && Normalize(s.patch.value).Ok?
    ensures var (s', r) := Apply(base, s, sel, allow);
      var ops := Normalize(s.patch.value).value;
      && (!AllMeant(sel) && (exists op <- ops :: HunkUnreadable(base, s.work.store, op, sel)) ==> r == Err(Unreadable))
      && (allow && r == Err(Unreadable) ==> !AllMeant(sel) && exists op <- ops :: HunkUnreadable(base, s.work.store, op, sel))
      && (r == Err(NotAvailable) ==> !AllMeant(sel) && forall op <- ops :: !Meant(op, sel))
      && (!AllMeant(sel) && (forall op <- ops :: !Meant(op, sel)) ==> r == Err(NotAvailable))
  {
    hide Normalize, Left, PreviewAll, ApplyAll, ConflictTouches, Meant, HunkUnreadable, SelectionFails, Applied;
    var ops, env := Normalize(s.patch.value).value, EnvOf(base, s, sel);
    HunkUnreadableIff(env, s.work.store, ops, sel);
    forall op | op in ops
      ensures HunkUnreadable(base, s.work.store, op, sel) == HunkUnreadable(env, s.work.store, op, sel)
      ensures HunkUnreadable(base, s.work.store, op, sel) ==> Meant(op, sel)
    {
      SameUnreadable(base, env, s.work.store, op, sel);
      UnreadableIsMeant(base, s.work.store, op, sel);
    }
    NoneTakenIff(ops, sel);
  }

  lemma NoneTakenIff(ops: seq<RawOp>, sel: Selection)
    ensures Applied(ops, sel) == [] <==> forall op <- ops :: !Meant(op, sel)
  {
    hide Applied, Meant;
    var taken := Applied(ops, sel);
    if taken != [] {
      TakesIff(ops, sel, taken[0]);
    } else {
      forall op | op in ops ensures !Meant(op, sel) {
        TakesIff(ops, sel, op);
      }
    }
  }

  lemma SameUnreadable(a: Env, b: Env, st: Store, op: RawOp, sel: Selection)
    requires a.read == b.read
    ensures HunkUnreadable(a, st, op, sel) == HunkUnreadable(b, st, op, sel)
  {
    hide HunkIn, NamedIn;
  }

  lemma UnreadableIsMeant(env: Env, st: Store, op: RawOp, sel: Selection)
    ensures HunkUnreadable(env, st, op, sel) ==> Meant(op, sel)
  {
    hide HunkIn, NamedIn, Read;
  }

  // ----- Success -----

  /** The environment of the call: its hunks are selected, and the user's verdicts count. */
  function CallEnv(base: Env, s: Session, sel: Selection): Env {
    Env(base.diff, base.read, sel.hunks, s.rejected)
  }

  /**
   * An apply that succeeds has taken the operations that are meant, in their order. The files are as these operations leave
   * them, one snapshot is on top of the stack, the verdicts are kept, and when nothing is left there is no patch and no preview.
   */
  lemma {:induction false} ApplySucceeded(base: Env, s: Session, sel: Selection, allow: bool)
    requires Apply(base, s, sel, allow).1.Ok?
    ensures s.patch.Some? && Normalize(s.patch.value).Ok?
    ensures var (s', r) := Apply(base, s, sel, allow);
      var p := ApplyAll(CallEnv(base, s, sel), s.work.store, r.value);
      && r.value == Filter(Normalize(s.patch.value).value, (op: RawOp) => Meant(op, sel))
      && p.ok && s'.work.store == p.store
      && s'.work.snapshots != [] && s'.work.snapshots[|s'.work.snapshots| - 1] == p.items
      && s'.rejected == s.rejected && (s'.patch.None? ==> s'.preview == [])
  {
    hide Normalize, SelectionFails, Left, PreviewAll, ApplyAll, ConflictTouches, NothingSelected, IsApplied, Meant, Filter;
    var ops := Normalize(s.patch.value).value;
    forall op {
      MeantIff(op, sel);
    }
    SameFilter(ops, (op: RawOp) => IsApplied(op, sel), (op: RawOp) => Meant(op, sel));
  }

  /** Operation `i` of those taken has left what it promises, and its item is on top of the stack. */
  ghost predicate LandedIn(env: Env, s: Session, s': Session, taken: seq<RawOp>, i: nat) {
    && i < |taken| && s'.work.snapshots != []
    && var items := s'.work.snapshots[|s'.work.snapshots| - 1];
       |items| == |taken| && Landed(env, s.work.store, s'.work.store, taken[i], items[i])
  }

  /** So every operation that is meant leaves in the session's files what it promises, when the operations name different
      files. */
  lemma {:induction false} ApplyLands(base: Env, s: Session, sel: Selection, allow: bool, taken: seq<RawOp>, i: nat)
    requires Apply(base, s, sel, allow).1 == Ok(taken)
    requires Orderly(s.work.store) && SeparateTargets(s.work.store, taken) && i < |taken|
    ensures LandedIn(CallEnv(base, s, sel), s, Apply(base, s, sel, allow).0, taken, i)
  {
    hide Apply, ApplyAll, Landed, Orderly, SeparateTargets, Normalize, Filter;
    ApplySucceeded(base, s, sel, allow);
    AllItems(CallEnv(base, s, sel), s.work.store, taken);
    PatchLands(CallEnv(base, s, sel), s.work.store, taken, i);
  }

  lemma {:induction false} AllItems(env: Env, st: Store, ops: seq<RawOp>)
    requires ApplyAll(env, st, ops).ok
    ensures |ApplyAll(env, st, ops).items| == |ops|
    decreases |ops|
  {
    hide Effect, Appliable;
    if ops != [] {
      AllItems(env, Effect(env, st, ops[0]).0, ops[1..]);
    }
  }

  // ----- Rejecting -----

  predicate EntryIn(item: PreviewItem, files: set<nat>, ids: set<string>) {
    (exists id <- files :: item.file == Some(id)) || exists id <- ids :: item.operationId == id
  }

  /** The entries of the preview that a reject leaves. */
  function EntriesLeft(items: seq<PreviewItem>, files: set<nat>, ids: set<string>): seq<PreviewItem> {
    Filter(items, (item: PreviewItem) => !EntryIn(item, files, ids))
  }

  lemma EntriesKept(items: seq<PreviewItem>, files: set<nat>, ids: set<string>)
    ensures KeptItems(items, files, ids) == EntriesLeft(items, files, ids)
  {
    SameFilter(items, (item: PreviewItem) => !ItemPicked(item, files, ids), (item: PreviewItem) => !EntryIn(item, files, ids));
  }

  function Named(files: set<nat>, ids: set<string>): Selection {
    Selection(files, ids, {})
  }

  /** Without files and ids, or without a patch, a reject drops patch and preview. */
  lemma {:induction false} RejectDrops(s: Session, files: set<nat>, ids: set<string>)
    requires s.patch.None? || (files == {} && ids == {})
    ensures Reject(s, files, ids) == Ok((Session(s.work, None, [], s.rejected), Dropped(s.preview)))
  {
  }

  /**
   * A reject by file or id takes the operations it names out of the patch and their entries out of the preview, both in order,
   * and changes nothing else. It fails if and only if the patch cannot be read.
   */
  lemma {:induction false} RejectTakes(s: Session, files: set<nat>, ids: set<string>)
    requires s.patch.Some? && !FilesShaped(s.patch.value) && !(files == {} && ids == {})
    ensures var r := Reject(s, files, ids);
      if Normalize(s.patch.value).Err? then r == Err(BadPatch)
      else
        && r.Ok?
        && var (s', report) := r.value; var ops := Normalize(s.patch.value).value;
          && report == Taken(Filter(ops, (op: RawOp) => NamedIn(op, Named(files, ids))))
          && s' == Session(s.work, Remainder(Filter(ops, (op: RawOp) => !NamedIn(op, Named(files, ids)))),
                           EntriesLeft(s.preview, files, ids), s.rejected)
  {
    hide Normalize, Filter, Remainder, NamedIn, Picked, KeptItems, EntriesLeft;
    if Normalize(s.patch.value).Ok? {
      var ops := Normalize(s.patch.value).value;
      EntriesKept(s.preview, files, ids);
      forall op | op in ops ensures NamedIn(op, Named(files, ids)) == Picked(op, files, ids) {
        MeantIff(op, Named(files, ids));
      }
      SameFilter(ops, (op: RawOp) => Picked(op, files, ids), (op: RawOp) => NamedIn(op, Named(files, ids)));
      SameFilter(ops, (op: RawOp) => !Picked(op, files, ids), (op: RawOp) => !NamedIn(op, Named(files, ids)));
    }
  }

  /** The same for a list of file items, each by its own file and id; when none is left, patch and preview are dropped. */
  lemma {:induction false} RejectTakesFiles(s: Session, files: set<nat>, ids: set<string>, item: RawOp)
    requires s.patch.Some? && FilesShaped(s.patch.value) && !(files == {} && ids == {})
    ensures var r, items := Reject(s, files, ids), s.patch.value.files;
      if exists i :: 0 <= i < |items| && items[i].None? then r == Err(BadPatch)
      else
        && r.Ok? && r.value.1.Taken?
        && var (s', report) := r.value;
          && (item in report.ops <==> Some(item) in items && NamedIn(item, Named(files, ids)))
          && s'.work == s.work && s'.rejected == s.rejected
          && (if s'.patch.None? then s'.preview == [] && forall x <- items :: NamedIn(x.value, Named(files, ids))
              else
                && s'.patch == Some(s.patch.value.(files := s'.patch.value.files)) && s'.patch.value.files != []
                && (Some(item) in s'.patch.value.files <==> Some(item) in items && !NamedIn(item, Named(files, ids)))
                && s'.preview == EntriesLeft(s.preview, files, ids))
  {
    hide RawPicked, NamedIn, Picked, KeptItems, EntriesLeft;
    var items := s.patch.value.files;
    if forall i :: 0 <= i < |items| ==> items[i].Some? {
      EntriesKept(s.preview, files, ids);
      MeantIff(item, Named(files, ids));
      RawPickedMember(items, files, ids, true, item);
      RawPickedMember(items, files, ids, false, item);
      var left := RawPicked(items, files, ids, false);
      forall x | x in items ensures left == [] ==> NamedIn(x.value, Named(files, ids)) {
        RawPickedMember(items, files, ids, false, x.value);
        MeantIff(x.value, Named(files, ids));
      }
    }
  }

  // ----- Previews -----

  /** The operation cannot be previewed: its file id is none, the name of its folder is refused, or its file, which is there
      and not to be created, cannot be read. */
  predicate NotShown(env: Env, st: Store, op: RawOp) {
    var known := op.file.FileId? && op.file.id in st.records;
    || op.file.BadFile?
    || (op.typ == "folder" &&
        SafeFilename(if op.filename != "" then op.filename else if known then st.records[op.file.id].filename else "").Err?)
    || (op.typ != "folder" && op.typ != "create" && known && Read(env, st, op.file.id).None?)
  }

  /** A preview fails if and only if one of its operations cannot be previewed. */
  lemma {:induction false} PreviewFailsIff(env: Env, st: Store, ops: seq<RawOp>, previous: seq<PreviewItem>)
    ensures PreviewAll(env, st, ops, previous).Err? <==> exists op <- ops :: NotShown(env, st, op)
  {
    hide SafeFilename, Read, PreviewList;
    hide NotShown, Previewable;
    forall op | op in ops ensures Previewable(env, st, op) <==> !NotShown(env, st, op) {
      ShownIff(env, st, op);
    }
    if op :| op in ops && NotShown(env, st, op) {
      var i :| 0 <= i < |ops| && ops[i] == op;
      assert !Previewable(env, st, ops[i]);
    }
  }

  lemma ShownIff(env: Env, st: Store, op: RawOp)
    ensures Previewable(env, st, op) <==> !NotShown(env, st, op)
  {
    hide SafeFilename, Read;
  }

  // ----- The undo stack -----

  /** A rollback takes one snapshot off the stack, and every other one can still be rolled back. */
  lemma {:induction false} OthersStay(w: Work, i: nat, j: nat)
    requires i < |w.snapshots| && j < |w.snapshots| && i != j
    ensures Rollback(w, Some(i)).Ok? && (i == |w.snapshots| - 1 ==> Rollback(w, None) == Rollback(w, Some(i)))
    ensures var left := Rollback(w, Some(i)).value;
      var again := Rollback(left, Some(if j < i then j else j - 1));
      && left.store == RestoreAll(w.store, w.snapshots[i]) && |left.snapshots| == |w.snapshots| - 1
      && again.Ok? && again.value.store == RestoreAll(left.store, w.snapshots[j])
  {
    hide RestoreAll;
  }
}
