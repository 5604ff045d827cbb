// Applying the safe part of a pending patch without review (backend/services/agent/code_workspace.py,
// classify_auto_apply_operations and apply_safe_patch_payload).
module AutoApply {
  import opened CodeSessions
  import opened PatchPayload
  import opened PatchSelection
  import opened Strings
  import opened Sublists
  import opened Workspace
  import opened WorkspaceFailures
  import opened WorkspaceFiles
  import opened WorkspacePreviews
  import opened Wrappers

  // ----- Classification -----

  /** A dictionary entry: the place of the first item with the id, the value of the last. */
  function InsertItem(values: seq<PreviewItem>, item: PreviewItem): seq<PreviewItem> {
    if values == [] then [item]
    else if values[0].operationId == item.operationId then [item] + values[1..]
    else [values[0]] + InsertItem(values[1..], item)
  }

  function ByOperation(items: seq<PreviewItem>): seq<PreviewItem> {
    if items == [] then [] else InsertItem(ByOperation(items[..|items| - 1]), items[|items| - 1])
  }

  function LastWithFile(items: seq<PreviewItem>, file: nat): (r: Option<PreviewItem>)
    ensures r.Some? ==> r.value in items && r.value.file == Some(file)
  {
    if items == [] then None
    else if items[|items| - 1].file == Some(file) then Some(items[|items| - 1])
    else LastWithFile(items[..|items| - 1], file)
  }

  /** What the preview says about an operation: by its id, or else by its file. */
  function PreviewFor(items: seq<PreviewItem>, op: RawOp): Option<PreviewItem> {
    var own := Find(items, op.operationId);
    if own.Some? then own else if op.file.FileId? then LastWithFile(ByOperation(items), op.file.id) else None
  }

  predicate Conflicted(items: seq<PreviewItem>, op: RawOp) {
    PreviewFor(items, op).Some? && PreviewFor(items, op).value.conflict
  }

  predicate Destructive(op: RawOp) {
    KindOf(op) in {Delete, Rename}
  }

  predicate IsSafe(items: seq<PreviewItem>, op: RawOp) {
    !Conflicted(items, op) && !Destructive(op) && !(KindOf(op) == Modify && op.file.NoFile?)
  }

  function Safe(ops: seq<RawOp>, items: seq<PreviewItem>): seq<RawOp> {
    Filter(ops, (op: RawOp) => IsSafe(items, op))
  }

  function ReviewRequired(ops: seq<RawOp>, items: seq<PreviewItem>): seq<RawOp> {
    Filter(ops, (op: RawOp) => !IsSafe(items, op))
  }

  function Conflicts(ops: seq<RawOp>, items: seq<PreviewItem>): seq<RawOp> {
    Filter(ops, (op: RawOp) => Conflicted(items, op))
  }

  method ClassifyAutoApplyOperations(ops: seq<RawOp>, items: seq<PreviewItem>)
    returns (safe: seq<RawOp>, review: seq<RawOp>, conflicts: seq<RawOp>)
    ensures safe == Safe(ops, items) && review == ReviewRequired(ops, items) && conflicts == Conflicts(ops, items)
  {
    hide Filter, Find, LastWithFile, ByOperation, KindOf;
    safe, review, conflicts := [], [], [];
    var byOperation := ByOperation(items);
    NothingToFilter(ops, (op: RawOp) => IsSafe(items, op));
    NothingToFilter(ops, (op: RawOp) => !IsSafe(items, op));
    NothingToFilter(ops, (op: RawOp) => Conflicted(items, op));
    for i := 0 to |ops|
      invariant safe == Safe(ops[..i], items) && review == ReviewRequired(ops[..i], items)
      invariant conflicts == Conflicts(ops[..i], items)
    {
      var op := ops[i];
      FilterStep(ops, (op: RawOp) => IsSafe(items, op), i);
      FilterStep(ops, (op: RawOp) => !IsSafe(items, op), i);
      FilterStep(ops, (op: RawOp) => Conflicted(items, op), i);
      var preview := Find(items, op.operationId);
      if preview.None? && op.file.FileId? {
        preview := LastWithFile(byOperation, op.file.id);
      }
      if preview.Some? && preview.value.conflict {
        conflicts := conflicts + [op];
        review := review + [op];
      } else if KindOf(op) in {Delete, Rename} {
        review := review + [op];
      } else if KindOf(op) == Modify && op.file.NoFile? {
        review := review + [op];
      } else {
        safe := safe + [op];
      }
    }
    assert ops[..|ops|] == ops;
  }

  /** Safe and review-required operations share the patch out; every conflict is under review, in the same order. */
  lemma {:induction false} ClassesShareOut(ops: seq<RawOp>, items: seq<PreviewItem>)
    ensures Interleaving(ops, Safe(ops, items), ReviewRequired(ops, items))
    ensures Conflicts(ops, items) == Filter(ReviewRequired(ops, items), (op: RawOp) => Conflicted(items, op))
  {
    FiltersInterleave(ops, (op: RawOp) => IsSafe(items, op), (op: RawOp) => !IsSafe(items, op));
    FilterTwice(ops, (op: RawOp) => !IsSafe(items, op), (op: RawOp) => Conflicted(items, op));
  }

  // ----- Which operations the safe ids select -----

  function SafeIds(safe: seq<RawOp>): seq<string> {
    seq(|safe|, i requires 0 <= i < |safe| => safe[i].operationId)
  }

  function SafeSelection(ops: seq<RawOp>, items: seq<PreviewItem>): Selection {
    Selection({}, SelectedIds(SafeIds(Safe(ops, items))), {})
  }

  predicate AllBlank(safe: seq<RawOp>) {
    forall op <- safe :: Blank(op.operationId)
  }

  /** No safe operation has a blank id or shares its id with one under review; if all their ids are blank, nothing is
      under review. */
  predicate IdsDecide(safe: seq<RawOp>, review: seq<RawOp>) {
    if AllBlank(safe) then review == []
    else
      && (forall op <- safe :: !Blank(op.operationId))
      && forall op <- safe, other <- review :: op.operationId != other.operationId
  }

  lemma SelectedId(safe: seq<RawOp>, id: string)
    ensures id in SelectedIds(SafeIds(safe)) <==> !Blank(id) && exists op <- safe :: op.operationId == id
  {
    hide Blank;
    var ids := SafeIds(safe);
    if id in ids {
      var i :| 0 <= i < |ids| && ids[i] == id;
      assert safe[i].operationId == id;
    }
    if exists op <- safe :: op.operationId == id {
      var op :| op in safe && op.operationId == id;
      var i :| 0 <= i < |safe| && safe[i] == op;
      assert ids[i] == id;
    }
  }

  lemma SafeMember(ops: seq<RawOp>, items: seq<PreviewItem>, op: RawOp)
    ensures op in Safe(ops, items) <==> op in ops && IsSafe(items, op)
    ensures op in ReviewRequired(ops, items) <==> op in ops && !IsSafe(items, op)
  {
    FilterMember(ops, (o: RawOp) => IsSafe(items, o), op);
    FilterMember(ops, (o: RawOp) => !IsSafe(items, o), op);
  }

  lemma NothingSelectedIff(safe: seq<RawOp>)
    ensures SelectedIds(SafeIds(safe)) == {} <==> AllBlank(safe)
  {
    hide Blank;
    forall id {
      SelectedId(safe, id);
    }
    if AllBlank(safe) {
      forall id ensures id !in SelectedIds(SafeIds(safe)) {
        SelectedId(safe, id);
      }
    } else {
      var op :| op in safe && !Blank(op.operationId);
      SelectedId(safe, op.operationId);
    }
  }

  /** The ids of the safe operations select exactly the safe operations if and only if they decide. */
  lemma {:induction false} SelectsSafeIff(ops: seq<RawOp>, items: seq<PreviewItem>)
    requires Safe(ops, items) != []
    ensures Applied(ops, SafeSelection(ops, items)) == Safe(ops, items) <==>
      IdsDecide(Safe(ops, items), ReviewRequired(ops, items))
  {
    hide Blank, IsSafe, Filter, SelectedIds;
    var safe, review, sel := Safe(ops, items), ReviewRequired(ops, items), SafeSelection(ops, items);
    forall op {
      SafeMember(ops, items, op);
    }
    forall id {
      SelectedId(safe, id);
    }
    NothingSelectedIff(safe);
    SameFilter(ops, (op: RawOp) => IsApplied(op, sel), (op: RawOp) => IsSafe(items, op));
    if AllBlank(safe) {
      AllSafeIff(ops, items);
    } else {
      assert forall op <- ops :: IsApplied(op, sel) <==> op.operationId in sel.ids;
    }
  }

  lemma AllSafeIff(ops: seq<RawOp>, items: seq<PreviewItem>)
    ensures ReviewRequired(ops, items) == [] <==> forall op <- ops :: IsSafe(items, op)
  {
    hide IsSafe, Filter;
    forall op {
      SafeMember(ops, items, op);
    }
    if ReviewRequired(ops, items) != [] {
      assert ReviewRequired(ops, items)[0] in ReviewRequired(ops, items);
    }
  }

  /** And then they leave exactly what is under review. */
  lemma {:induction false} LeavesReview(ops: seq<RawOp>, items: seq<PreviewItem>, whole: RawOp -> bool)
    requires Safe(ops, items) != [] && IdsDecide(Safe(ops, items), ReviewRequired(ops, items))
    ensures Left(ops, SafeSelection(ops, items), whole) == ReviewRequired(ops, items)
  {
    hide Blank, IsSafe, Filter, SelectedIds;
    var safe, sel := Safe(ops, items), SafeSelection(ops, items);
    SelectsSafeIff(ops, items);
    NothingSelectedIff(safe);
    SameFilter(ops, (op: RawOp) => IsApplied(op, sel), (op: RawOp) => IsSafe(items, op));
    AllSafeIff(ops, items);
    SameFilter(ops, (op: RawOp) => IsLeft(op, sel, whole), (op: RawOp) => !IsSafe(items, op));
  }

  // ----- The call -----

  function AutoApplied(base: Env, s: Session): (Session, Result<seq<RawOp>, Failure>) {
    if s.patch.None? then (s, Ok([]))
    else
      var shown := Previewed(base, s);
      if shown.Err? then (s, Err(shown.error))
      else
        var ops := Pending(s.patch);
        if Safe(ops, shown.value.preview) == [] then
          var again := Previewed(base, shown.value);
          if again.Err? then (shown.value, Err(again.error)) else (again.value, Ok([]))
        else Apply(base, shown.value, SafeSelection(ops, shown.value.preview), false)
  }

  method ApplySafePatchPayload(session: CodeSession, base: Env) returns (r: Result<seq<RawOp>, Failure>)
    modifies session
    ensures (session.View(), r) == AutoApplied(base, old(session.View()))
  {
    hide Previewed, Apply, Safe, ReviewRequired, Conflicts, Normalize;
    if session.patch.None? {
      return Ok([]);
    }
    PreviewNeedsPatch(base, session.View());
    var shown := session.PreviewPatchPayload(base);
    if shown.Err? {
      return Err(shown.error);
    }
    var all := NormalizePatchOperations(session.patch.value);
    var safe, review, conflicts := ClassifyAutoApplyOperations(all.value, session.preview);
    if safe == [] {
      var again := session.PreviewPatchPayload(base);
      if again.Err? {
        return Err(again.error);
      }
      return Ok([]);
    }
    r := session.ApplyPatchPayload(base, Selection({}, SelectedIds(SafeIds(safe)), {}), false);
  }

  lemma PreviewNeedsPatch(base: Env, s: Session)
    requires s.patch.Some?
    ensures Previewed(base, s).Ok? ==>
      && Normalize(s.patch.value).Ok? && Previewed(base, s).value == s.(preview := Previewed(base, s).value.preview)
      && PreviewAll(base, s.work.store, Normalize(s.patch.value).value, s.preview) == Ok(Previewed(base, s).value.preview)
  {
    hide Normalize, PreviewAll;
  }

  /** The second preview of the call, on the same files. */
  lemma PreviewedAgain(base: Env, sel: Selection, s: Session)
    requires s.patch.Some? && Previewed(base, s).Ok?
    ensures var s1 := Previewed(base, s).value;
      && Previewed(EnvOf(base, s1, sel), s1).Ok? && Previewed(base, s1) == Previewed(EnvOf(base, s1, sel), s1)
      && Previewed(base, s1).value == s1.(preview := PreviewList(s.work.store, Pending(s.patch), s1.preview))
  {
    hide Normalize, PreviewList, KindOf, SafeFilename;
  }

  /** The state in which the remainder is previewed. */
  function AfterSafe(base: Env, s: Session, items: seq<PreviewItem>): Session {
    var own := EnvOf(base, s, SafeSelection(Pending(s.patch), s.preview));
    var p := ApplyAll(own, s.work.store, Safe(Pending(s.patch), s.preview));
    Session(Work(p.store, Push(s.work.snapshots, p.items)), Remainder(ReviewRequired(Pending(s.patch), s.preview)), items, s.rejected)
  }

  /** What the call needs, once something is safe: ids that decide, no conflict on the id or the file of a safe operation,
      an apply that goes through, and a remainder that can be previewed. */
  predicate SafeGoesThrough(base: Env, s: Session, items: seq<PreviewItem>) {
    var ops := Pending(s.patch);
    var safe, review := Safe(ops, s.preview), ReviewRequired(ops, s.preview);
    && IdsDecide(safe, review) && !ConflictTouches(items, safe)
    && ApplyAll(EnvOf(base, s, SafeSelection(ops, s.preview)), s.work.store, safe).ok
    && (review == [] || Previewed(base, AfterSafe(base, s, items)).Ok?)
  }

  lemma NoHunksNoReading(env: Env, st: Store, ops: seq<RawOp>, sel: Selection)
    requires sel.hunks == {}
    ensures !SelectionFails(env, st, ops, sel)
  {
    hide KindOf, Readable;
  }

  lemma PreviewIgnoresHunks(base: Env, sel: Selection, s: Session, t: Session)
    ensures Previewed(EnvOf(base, s, sel), t) == Previewed(base, t)
  {
    hide Normalize, PreviewList, KindOf, SafeFilename;
    if t.patch.Some? && Normalize(t.patch.value).Ok? {
      SamePreviewable(base, EnvOf(base, s, sel), t.work.store, Normalize(t.patch.value).value);
    }
  }

  lemma SamePreviewable(a: Env, b: Env, st: Store, ops: seq<RawOp>)
    requires a.read == b.read
    ensures AllPreviewable(a, st, ops) <==> AllPreviewable(b, st, ops)
  {
    hide KindOf, SafeFilename;
  }

  lemma FinishResult(base: Env, sel: Selection, s: Session, taken: seq<RawOp>, left: seq<RawOp>)
    ensures var own := EnvOf(base, s, sel);
      var p := ApplyAll(own, s.work.store, taken);
      var done := Session(Work(p.store, Push(s.work.snapshots, p.items)), Remainder(left), s.preview, s.rejected);
      var r := Finish(own, s, taken, left).1;
      (r.Ok? <==> p.ok && (left == [] || Previewed(base, done).Ok?)) && (r.Ok? ==> r == Ok(taken))
  {
    hide Previewed, ApplyAll, Remainder, Push;
    var own := EnvOf(base, s, sel);
    var p := ApplyAll(own, s.work.store, taken);
    PreviewIgnoresHunks(base, sel, s, Session(Work(p.store, Push(s.work.snapshots, p.items)), Remainder(left), s.preview, s.rejected));
  }

  /** The apply inside the call. */
  lemma SafeApply(base: Env, s: Session, items: seq<PreviewItem>, sel: Selection)
    requires s.patch.Some? && Normalize(s.patch.value).Ok? && sel.hunks == {}
    requires Previewed(base, s) == Ok(s.(preview := items))
    ensures var own, ops := EnvOf(base, s, sel), Pending(s.patch);
      var taken, left := Applied(ops, sel), Left(ops, sel, Whole(own, s.work.store));
      var r := Apply(base, s, sel, false).1;
      && (r.Ok? ==> r == Ok(taken))
      && var through := !ConflictTouches(items, taken) && Finish(own, s.(preview := items), taken, left).1.Ok?;
         r.Ok? <==> (NothingSelected(sel) || taken != []) && through
  {
    hide Previewed, Normalize, Applied, Left, Whole, ConflictTouches, ApplyAll, Remainder, SelectionFails;
    var own := EnvOf(base, s, sel);
    NoHunksNoReading(own, s.work.store, Pending(s.patch), sel);
    PreviewIgnoresHunks(base, sel, s, s);
    FinishResult(base, sel, s.(preview := items), Applied(Pending(s.patch), sel), Left(Pending(s.patch), sel, Whole(own, s.work.store)));
  }

  /** The call applies exactly the operations classified safe if and only if nothing is safe or those needs are met. */
  lemma {:induction false} AppliesSafeIff(base: Env, s: Session)
    requires s.patch.Some? && Previewed(base, s).Ok?
    ensures var s1 := Previewed(base, s).value;
      var safe := Safe(Pending(s.patch), s1.preview);
      AutoApplied(base, s).1 == Ok(safe) <==>
        (safe == [] || SafeGoesThrough(base, s1, PreviewList(s.work.store, Pending(s.patch), s1.preview)))
  {
    hide Previewed, Normalize, PreviewList, Safe, ReviewRequired, ApplyAll, Apply, Finish, ConflictTouches, Applied, Left,
      IdsDecide, Remainder, SelectedIds, Push;
    PreviewNeedsPatch(base, s);
    var s1, ops := Previewed(base, s).value, Pending(s.patch);
    var safe, review, sel := Safe(ops, s1.preview), ReviewRequired(ops, s1.preview), SafeSelection(ops, s1.preview);
    var items := PreviewList(s.work.store, ops, s1.preview);
    PreviewedAgain(base, sel, s);
    if safe != [] {
      SafeApply(base, s1, items, sel);
      SelectsSafeIff(ops, s1.preview);
      if IdsDecide(safe, review) {
        var whole := Whole(EnvOf(base, s1, sel), s.work.store);
        LeavesReview(ops, s1.preview, whole);
        FinishResult(base, sel, s1.(preview := items), safe, review);
        assert EnvOf(base, s1.(preview := items), sel) == EnvOf(base, s1, sel);
      }
    }
  }

  /** When something is safe but every safe id is blank, the call applies the whole patch, or is refused. */
  lemma {:induction false} BlankIdsApplyEverything(base: Env, s: Session)
    requires s.patch.Some? && Previewed(base, s).Ok?
    requires var safe := Safe(Pending(s.patch), Previewed(base, s).value.preview); safe != [] && AllBlank(safe)
    ensures AutoApplied(base, s).1.Ok? ==> AutoApplied(base, s).1 == Ok(Pending(s.patch))
  {
    hide Previewed, Normalize, PreviewList, Safe, ApplyAll, Apply, Finish, ConflictTouches, Remainder, Filter, Blank, SelectedIds;
    PreviewNeedsPatch(base, s);
    var s1, ops := Previewed(base, s).value, Pending(s.patch);
    var sel := SafeSelection(ops, s1.preview);
    NothingSelectedIff(Safe(ops, s1.preview));
    PreviewedAgain(base, sel, s);
    SafeApply(base, s1, PreviewList(s.work.store, ops, s1.preview), sel);
    FilterAll(ops, (op: RawOp) => IsApplied(op, sel));
  }

  /** A refused call leaves the records, the session files, the undo stack and the pending patch as they were. */
  lemma {:induction false} RefusedChangesNoFile(base: Env, s: Session)
    requires AutoApplied(base, s).1.Err?
    ensures var t := AutoApplied(base, s).0;
      && t.work.store.records == s.work.store.records && t.work.store.fileIds == s.work.store.fileIds
      && t.work.store.folders == s.work.store.folders && t.work.snapshots == s.work.snapshots
      && t.patch == s.patch && t.rejected == s.rejected
  {
    hide Normalize, PreviewAll, Safe, ApplyAll, ConflictTouches, Applied, Left, SelectionFails, Remainder, SafeSelection, Whole;
  }

  // ----- With distinct ids -----

  ghost predicate DistinctIds(ops: seq<RawOp>) {
    UniqueIds(ops) && forall op <- ops :: !Blank(op.operationId)
  }

  /** A conflicting operation works on the file of a safe one. */
  predicate ConflictShares(ops: seq<RawOp>, items: seq<PreviewItem>) {
    exists a <- Safe(ops, items), b <- Conflicts(ops, items) :: a.file.FileId? && a.file == b.file
  }

  lemma DistinctIdsDecide(ops: seq<RawOp>, items: seq<PreviewItem>)
    requires DistinctIds(ops) && Safe(ops, items) != []
    ensures IdsDecide(Safe(ops, items), ReviewRequired(ops, items))
  {
    hide Blank, IsSafe, Filter, UniqueIds;
    var safe, review := Safe(ops, items), ReviewRequired(ops, items);
    forall op {
      SafeMember(ops, items, op);
    }
    assert safe[0] in safe;
    forall a, b | a in safe && b in review ensures a.operationId != b.operationId {
      if a.operationId == b.operationId {
        OneIdOneOp(ops, a, b);
      }
    }
  }

  lemma ByOperationKeeps(items: seq<PreviewItem>, item: PreviewItem)
    ensures item in ByOperation(items) ==> item in items
  {
    if items != [] {
      ByOperationKeeps(items[..|items| - 1], item);
      InsertKeeps(ByOperation(items[..|items| - 1]), items[|items| - 1], item);
    }
  }

  lemma InsertKeeps(values: seq<PreviewItem>, item: PreviewItem, x: PreviewItem)
    ensures x in InsertItem(values, item) ==> x in values || x == item
  {
    if values != [] && values[0].operationId != item.operationId {
      InsertKeeps(values[1..], item, x);
    }
  }

  /** With unique ids an operation conflicts exactly when its own entry does. */
  lemma ConflictedByOwnEntry(st: Store, ops: seq<RawOp>, previous: seq<PreviewItem>, op: RawOp)
    requires UniqueIds(ops) && op in ops
    ensures var items, own := PreviewList(st, ops, previous), PreviewOf(st, op, previous);
      Conflicted(items, op) <==> own.Some? && own.value.conflict
  {
    hide Find, PreviewOf, PreviewList, UniqueIds, ByOperation, LastWithFile, KindOf;
    var items := PreviewList(st, ops, previous);
    OwnEntryOf(st, ops, previous, op);
    if PreviewOf(st, op, previous).None? && op.file.FileId? {
      NoEntryNoFile(st, ops, previous, op);
    }
  }

  lemma ItemFileFound(st: Store, ops: seq<RawOp>, previous: seq<PreviewItem>, item: PreviewItem)
    requires item in PreviewList(st, ops, previous) && item.file.Some?
    ensures item.file.value in st.records
  {
    hide KindOf, Find;
    var op := ItemHasOp(st, ops, previous, item);
  }

  lemma NoEntryNoFile(st: Store, ops: seq<RawOp>, previous: seq<PreviewItem>, op: RawOp)
    requires PreviewOf(st, op, previous).None? && op.file.FileId?
    ensures LastWithFile(ByOperation(PreviewList(st, ops, previous)), op.file.id).None?
  {
    hide Find, KindOf, ByOperation, PreviewList;
    var items := PreviewList(st, ops, previous);
    var r := LastWithFile(ByOperation(items), op.file.id);
    if r.Some? {
      ByOperationKeeps(items, r.value);
      ItemFileFound(st, ops, previous, r.value);
    }
  }

  /** Previewed twice on the same files, an operation is in conflict both times or neither. */
  lemma ConflictStays(st: Store, op: RawOp, previous: seq<PreviewItem>, items: seq<PreviewItem>)
    requires Find(items, op.operationId) == PreviewOf(st, op, previous)
    ensures var a, b := PreviewOf(st, op, previous), PreviewOf(st, op, items);
      (a.Some? <==> b.Some?) && (a.Some? ==> a.value.conflict == b.value.conflict && a.value.file == b.value.file)
  {
    hide KindOf;
  }

  lemma ConflictIsFound(st: Store, op: RawOp, previous: seq<PreviewItem>)
    requires PreviewOf(st, op, previous).Some? && PreviewOf(st, op, previous).value.conflict
    ensures Found(st, op) && PreviewOf(st, op, previous).value.file == Some(op.file.id)
    ensures PreviewOf(st, op, previous).value.operationId == op.operationId
  {
    hide KindOf, Find;
  }

  lemma EntryNames(st: Store, op: RawOp, previous: seq<PreviewItem>)
    ensures var r := PreviewOf(st, op, previous);
      r.Some? ==> r.value.operationId == op.operationId && (r.value.file.Some? ==> op.file == FileId(r.value.file.value))
  {
    hide KindOf, Find;
  }

  /** In the second preview a conflicting item touches a safe operation exactly when a conflicting operation shares a file
      with it. */
  lemma TouchesIffShares(st: Store, ops: seq<RawOp>, previous: seq<PreviewItem>)
    requires UniqueIds(ops)
    ensures var items := PreviewList(st, ops, previous);
      ConflictTouches(PreviewList(st, ops, items), Safe(ops, items)) <==> ConflictShares(ops, items)
  {
    hide Find, PreviewOf, PreviewList, UniqueIds, KindOf, IsSafe, Conflicted, Filter;
    var items := PreviewList(st, ops, previous);
    var again := PreviewList(st, ops, items);
    if ConflictTouches(again, Safe(ops, items)) {
      var item, a :| item in again && a in Safe(ops, items) && item.conflict &&
        (a.operationId == item.operationId || (item.file.Some? && a.file == FileId(item.file.value)));
      var b := ItemHasOp(st, ops, items, item);
      SharingConflict(st, ops, previous, a, b);
    }
    if ConflictShares(ops, items) {
      var a, b :| a in Safe(ops, items) && b in Conflicts(ops, items) && a.file.FileId? && a.file == b.file;
      FilterMember(ops, (o: RawOp) => Conflicted(items, o), b);
      SharedItem(st, ops, previous, b);
    }
  }

  lemma SharedItem(st: Store, ops: seq<RawOp>, previous: seq<PreviewItem>, b: RawOp)
    requires UniqueIds(ops) && b in ops && Conflicted(PreviewList(st, ops, previous), b)
    ensures var items := PreviewList(st, ops, previous);
      var r := PreviewOf(st, b, items);
      r.Some? && r.value in PreviewList(st, ops, items) && r.value.conflict && b.file.FileId? && r.value.file == Some(b.file.id)
  {
    hide Find, PreviewOf, PreviewList, UniqueIds, KindOf, Conflicted;
    var items := PreviewList(st, ops, previous);
    OwnEntryOf(st, ops, previous, b);
    ConflictedByOwnEntry(st, ops, previous, b);
    ConflictStays(st, b, previous, items);
    OwnEntryOf(st, ops, items, b);
    ConflictIsFound(st, b, items);
  }

  lemma SharingConflict(st: Store, ops: seq<RawOp>, previous: seq<PreviewItem>, a: RawOp, b: RawOp)
    requires UniqueIds(ops) && b in ops
    requires var items := PreviewList(st, ops, previous);
      var item := PreviewOf(st, b, items);
      && a in Safe(ops, items) && item.Some? && item.value.conflict
      && (a.operationId == item.value.operationId || (item.value.file.Some? && a.file == FileId(item.value.file.value)))
    ensures ConflictShares(ops, PreviewList(st, ops, previous))
  {
    hide Find, PreviewOf, PreviewList, UniqueIds, KindOf, Filter, Conflicted;
    var items := PreviewList(st, ops, previous);
    OwnEntryOf(st, ops, previous, b);
    ConflictStays(st, b, previous, items);
    ConflictedByOwnEntry(st, ops, previous, b);
    ConflictIsFound(st, b, items);
    FilterMember(ops, (o: RawOp) => Conflicted(items, o), b);
    SafeMember(ops, items, a);
    if a.operationId == b.operationId {
      OneIdOneOp(ops, a, b);
    }
    assert b in Conflicts(ops, items) && a.file.FileId? && a.file == b.file;
  }

  lemma ReviewReads(patch: Option<Payload>, items: seq<PreviewItem>)
    requires patch.Some? && Normalize(patch.value).Ok? && forall op <- Pending(patch) :: PatchPayload.Settled(op)
    ensures var review := ReviewRequired(Pending(patch), items);
      review != [] ==> Normalize(Remainder(review).value) == Ok(review)
  {
    hide Normal, PatchPayload.Settled, NormalizeItems, Filter, IsSafe, AllShort;
    NormalizedPayload(patch.value);
    FilterKeepsNormal(Pending(patch), (op: RawOp) => !IsSafe(items, op));
    RemainderReads(ReviewRequired(Pending(patch), items));
  }

  /** With distinct ids, separate targets of the safe operations and lasting names: the call applies exactly the safe
      operations if and only if each of them is appliable beforehand, no conflicting operation shares a file with one, and
      the files under review can still be read afterwards. */
  lemma {:induction false} AppliesSafeIffAppliable(base: Env, s: Session)
    requires s.patch.Some? && Previewed(base, s).Ok? && Orderly(s.work.store)
    requires DistinctIds(Pending(s.patch)) && forall op <- Pending(s.patch) :: PatchPayload.Settled(op)
    requires SeparateTargets(s.work.store, Safe(Pending(s.patch), Previewed(base, s).value.preview))
    ensures var s1, ops := Previewed(base, s).value, Pending(s.patch);
      var safe, review := Safe(ops, s1.preview), ReviewRequired(ops, s1.preview);
      var own := EnvOf(base, s1, SafeSelection(ops, s1.preview));
      AutoApplied(base, s).1 == Ok(safe) <==>
        (safe == [] ||
         ((forall op <- safe :: Appliable(own, s.work.store, op)) && !ConflictShares(ops, s1.preview) &&
          AllPreviewable(base, ApplyAll(own, s.work.store, safe).store, review)))
  {
    hide Previewed, Normalize, PreviewList, Safe, ReviewRequired, ApplyAll, AutoApplied, ConflictTouches, ConflictShares,
      IdsDecide, Remainder, SelectedIds, Push, Appliable, DistinctIds, UniqueIds, SeparateTargets, Orderly, PatchPayload.Settled,
      AllPreviewable, SafeIds, Pending;
    PreviewNeedsPatch(base, s);
    var s1, ops, st := Previewed(base, s).value, Pending(s.patch), s.work.store;
    var safe, review := Safe(ops, s1.preview), ReviewRequired(ops, s1.preview);
    var own := EnvOf(base, s1, SafeSelection(ops, s1.preview));
    var items := PreviewList(st, ops, s1.preview);
    AppliesSafeIff(base, s);
    if safe != [] {
      DistinctIdsDecide(ops, s1.preview);
      UniqueOfDistinct(ops);
      FirstPreview(base, s);
      TouchesIffShares(st, ops, s.preview);
      ApplySucceedsIff(own, st, safe);
      assert (forall op <- safe :: Appliable(own, st, op)) <==> forall i :: 0 <= i < |safe| ==> Appliable(own, st, safe[i]);
      ReviewReads(s.patch, s1.preview);
      RemainderPreviews(base, s1, items);
    }
  }

  lemma UniqueOfDistinct(ops: seq<RawOp>)
    requires DistinctIds(ops)
    ensures UniqueIds(ops)
  {
  }

  lemma FirstPreview(base: Env, s: Session)
    requires s.patch.Some? && Previewed(base, s).Ok?
    ensures Normalize(s.patch.value).Ok?
    ensures Previewed(base, s).value == s.(preview := PreviewList(s.work.store, Pending(s.patch), s.preview))
  {
    hide Normalize, PreviewList, AllPreviewable;
  }

  lemma RemainderPreviews(base: Env, s: Session, items: seq<PreviewItem>)
    requires var review := ReviewRequired(Pending(s.patch), s.preview);
      review != [] ==> Normalize(Remainder(review).value) == Ok(review)
    ensures var ops := Pending(s.patch);
      var safe, review := Safe(ops, s.preview), ReviewRequired(ops, s.preview);
      var own := EnvOf(base, s, SafeSelection(ops, s.preview));
      (review == [] || Previewed(base, AfterSafe(base, s, items)).Ok?) <==>
        AllPreviewable(base, ApplyAll(own, s.work.store, safe).store, review)
  {
    hide Normalize, PreviewList, Previewable, Safe, ReviewRequired, ApplyAll, SafeSelection, Pending;
  }

  /** A file under review that a safe operation modifies can be read in its new text. */
  ghost predicate StaysReadable(base: Env, own: Env, st: Store, safe: seq<RawOp>, op: RawOp) {
    Targeted(op) && Found(st, op) ==>
      forall a <- safe :: KindOf(a) == Modify && Target(a) == Target(op) ==>
        base.read(st.records[Target(op).value].filename, TextFor(own, st, a)).Some?
  }

  lemma SafeTargets(ops: seq<RawOp>, items: seq<PreviewItem>)
    ensures forall a <- Safe(ops, items) :: Targeted(a) ==> KindOf(a) == Modify
  {
    hide Filter, Conflicted, KindOf;
    forall a | a in Safe(ops, items) ensures Targeted(a) ==> KindOf(a) == Modify {
      SafeMember(ops, items, a);
    }
  }

  lemma PreviewableAfter(base: Env, own: Env, st: Store, safe: seq<RawOp>, op: RawOp)
    requires Orderly(st) && SeparateTargets(st, safe) && ApplyAll(own, st, safe).ok && own.read == base.read
    requires (forall a <- safe :: Targeted(a) ==> KindOf(a) == Modify) && Previewable(base, st, op)
    requires Target(op).Some? ==> Target(op).value < st.nextId
    ensures Previewable(base, ApplyAll(own, st, safe).store, op) <==> StaysReadable(base, own, st, safe, op)
  {
    hide Orderly, SeparateTargets, ApplyAll, KindOf, SafeFilename, TextFor;
    var t := ApplyAll(own, st, safe).store;
    if Target(op).Some? {
      var id := Target(op).value;
      if exists a <- safe :: KindOf(a) == Modify && Target(a) == Some(id) {
        var a :| a in safe && KindOf(a) == Modify && Target(a) == Some(id);
        ModifiedFile(own, st, safe, a);
        forall b | b in safe && KindOf(b) == Modify && Target(b) == Some(id) ensures b == a {
          OneFileOneOp(st, safe, b, a);
        }
      } else {
        ApplyAllElsewhere(own, st, safe, id);
        assert ViewOf(t, id) == ViewOf(st, id);
      }
    }
  }

  /** With no operation naming a file that does not exist yet, all of this can be told before the call. */
  lemma {:induction false} AppliesSafeIffForeseen(base: Env, s: Session)
    requires s.patch.Some? && Previewed(base, s).Ok? && Orderly(s.work.store)
    requires DistinctIds(Pending(s.patch)) && forall op <- Pending(s.patch) :: PatchPayload.Settled(op)
    requires SeparateTargets(s.work.store, Safe(Pending(s.patch), Previewed(base, s).value.preview))
    requires forall op <- Pending(s.patch) :: Target(op).Some? ==> Target(op).value < s.work.store.nextId
    ensures var s1, ops := Previewed(base, s).value, Pending(s.patch);
      var safe, review := Safe(ops, s1.preview), ReviewRequired(ops, s1.preview);
      var own := EnvOf(base, s1, SafeSelection(ops, s1.preview));
      AutoApplied(base, s).1 == Ok(safe) <==>
        (safe == [] ||
         ((forall op <- safe :: Appliable(own, s.work.store, op)) && !ConflictShares(ops, s1.preview) &&
          forall op <- review :: StaysReadable(base, own, s.work.store, safe, op)))
  {
    hide Previewed, Normalize, PreviewList, ApplyAll, AutoApplied, ConflictShares, SelectedIds, Appliable, DistinctIds, UniqueIds,
      SeparateTargets, Orderly, PatchPayload.Settled, Previewable, SafeIds, Pending, Filter, IsSafe, StaysReadable;
    PreviewNeedsPatch(base, s);
    AppliesSafeIffAppliable(base, s);
    AllOnceShown(base, s);
    var s1, ops, st := Previewed(base, s).value, Pending(s.patch), s.work.store;
    var safe, review := Safe(ops, s1.preview), ReviewRequired(ops, s1.preview);
    var own := EnvOf(base, s1, SafeSelection(ops, s1.preview));
    if forall op <- safe :: Appliable(own, st, op) {
      ApplySucceedsIff(own, st, safe);
      SafeTargets(ops, s1.preview);
      forall op | op in review
        ensures Previewable(base, ApplyAll(own, st, safe).store, op) <==> StaysReadable(base, own, st, safe, op)
      {
        SafeMember(ops, s1.preview, op);
        var k :| 0 <= k < |ops| && ops[k] == op;
        assert Previewable(base, st, ops[k]);
        PreviewableAfter(base, own, st, safe, op);
      }
      AllByMember(base, ApplyAll(own, st, safe).store, review);
    }
  }

  lemma AllByMember(env: Env, st: Store, ops: seq<RawOp>)
    ensures AllPreviewable(env, st, ops) <==> forall op <- ops :: Previewable(env, st, op)
  {
    hide Previewable;
    if AllPreviewable(env, st, ops) {
      forall op | op in ops ensures Previewable(env, st, op) {
        var i :| 0 <= i < |ops| && ops[i] == op;
        assert Previewable(env, st, ops[i]);
      }
    }
  }

  /** When all operations have distinct ids and separate targets, it is enough, and necessary, that each safe operation is
      appliable beforehand; then exactly what is under review stays pending, and nothing destructive or conflicting has been
      applied. */
  lemma {:induction false} SeparatePatchIff(base: Env, s: Session)
    requires s.patch.Some? && Previewed(base, s).Ok? && Orderly(s.work.store)
    requires DistinctIds(Pending(s.patch)) && forall op <- Pending(s.patch) :: PatchPayload.Settled(op)
    requires SeparateTargets(s.work.store, Pending(s.patch))
    ensures var s1, ops := Previewed(base, s).value, Pending(s.patch);
      var safe := Safe(ops, s1.preview);
      var own := EnvOf(base, s1, SafeSelection(ops, s1.preview));
      && (AutoApplied(base, s).1 == Ok(safe) <==> forall op <- safe :: Appliable(own, s.work.store, op))
      && (forall op <- safe :: !Destructive(op) && !Conflicted(s1.preview, op))
  {
    hide Previewed, Normalize, PreviewList, ReviewRequired, Filter, ApplyAll, AutoApplied, ConflictShares, Remainder, SelectedIds,
      Appliable, DistinctIds, UniqueIds, SeparateTargets, Orderly, PatchPayload.Settled, AllPreviewable, SafeIds, Pending,
      Conflicted, KindOf;
    var s1, ops := Previewed(base, s).value, Pending(s.patch);
    var safe := Safe(ops, s1.preview);
    forall op {
      SafeMember(ops, s1.preview, op);
    }
    SafeStaysSeparate(s.work.store, ops, s1.preview);
    AppliesSafeIffAppliable(base, s);
    NothingShared(s.work.store, ops, s1.preview);
    if safe != [] && forall op <- safe :: Appliable(EnvOf(base, s1, SafeSelection(ops, s1.preview)), s.work.store, op) {
      FirstPreview(base, s);
      AllOnceShown(base, s);
      ReviewStaysReadable(base, EnvOf(base, s1, SafeSelection(ops, s1.preview)), s.work.store, ops, s1.preview);
    }
  }

  lemma AllOnceShown(base: Env, s: Session)
    requires s.patch.Some? && Previewed(base, s).Ok?
    ensures AllPreviewable(base, s.work.store, Pending(s.patch))
  {
    hide Normalize, PreviewList, Previewable;
  }

  lemma FilterSeparate(st: Store, ops: seq<RawOp>, p: RawOp -> bool)
    requires SeparateTargets(st, ops)
    ensures SeparateTargets(st, Filter(ops, p))
  {
    hide Target, Filter;
    var at := FilterPlaces(ops, p);
  }

  lemma SafeStaysSeparate(st: Store, ops: seq<RawOp>, items: seq<PreviewItem>)
    requires SeparateTargets(st, ops)
    ensures SeparateTargets(st, Safe(ops, items))
  {
    FilterSeparate(st, ops, (op: RawOp) => IsSafe(items, op));
  }

  lemma OneFileOneOp(st: Store, ops: seq<RawOp>, a: RawOp, b: RawOp)
    requires SeparateTargets(st, ops) && a in ops && b in ops && Target(a).Some? && Target(a) == Target(b)
    ensures a == b
  {
    var i :| 0 <= i < |ops| && ops[i] == a;
    var j :| 0 <= j < |ops| && ops[j] == b;
    assert i == j;
  }

  lemma NothingShared(st: Store, ops: seq<RawOp>, items: seq<PreviewItem>)
    requires SeparateTargets(st, ops)
    ensures !ConflictShares(ops, items)
  {
    hide SeparateTargets, Filter, Conflicted, KindOf;
    forall a, b | a in Safe(ops, items) && b in Conflicts(ops, items) ensures !(a.file.FileId? && a.file == b.file) {
      SafeMember(ops, items, a);
      FilterMember(ops, (o: RawOp) => Conflicted(items, o), b);
      if a.file.FileId? && a.file == b.file {
        OneFileOneOp(st, ops, a, b);
      }
    }
  }

  lemma ReviewStaysReadable(base: Env, own: Env, st: Store, ops: seq<RawOp>, items: seq<PreviewItem>)
    requires Orderly(st) && SeparateTargets(st, ops) && own.read == base.read && AllPreviewable(base, st, ops)
    ensures AllPreviewable(base, ApplyAll(own, st, Safe(ops, items)).store, ReviewRequired(ops, items))
  {
    hide Orderly, SeparateTargets, Filter, IsSafe, ApplyAll, Previewable, KindOf;
    var safe, review := Safe(ops, items), ReviewRequired(ops, items);
    forall i | 0 <= i < |review| ensures Previewable(base, ApplyAll(own, st, safe).store, review[i]) {
      var op := review[i];
      assert op in review;
      SafeMember(ops, items, op);
      var k :| 0 <= k < |ops| && ops[k] == op;
      assert Previewable(base, st, ops[k]);
      forall a | a in safe ensures Target(op).Some? ==> Target(a) != Target(op) {
        SafeMember(ops, items, a);
        if Target(op).Some? && Target(a) == Target(op) {
          OneFileOneOp(st, ops, a, op);
        }
      }
      UntouchedPreviewable(base, own, st, ops, safe, op);
    }
  }

  lemma UntouchedPreviewable(base: Env, own: Env, st: Store, ops: seq<RawOp>, safe: seq<RawOp>, op: RawOp)
    requires Orderly(st) && SeparateTargets(st, ops) && op in ops && Previewable(base, st, op)
    requires Target(op).Some? ==> forall a <- safe :: Target(a) != Target(op)
    ensures Previewable(base, ApplyAll(own, st, safe).store, op)
  {
    hide Orderly, ApplyAll, KindOf, SafeFilename, Targeted;
    var k :| 0 <= k < |ops| && ops[k] == op;
    if Target(op).Some? {
      assert Target(ops[k]).value < st.nextId;
      ApplyAllElsewhere(own, st, safe, Target(op).value);
      assert ViewOf(ApplyAll(own, st, safe).store, Target(op).value) == ViewOf(st, Target(op).value);
    }
  }
}
