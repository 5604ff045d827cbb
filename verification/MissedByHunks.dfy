// Operations that share an id and are separated by a selection of hunks: the runs in which a change is missed
// (backend/services/agent/code_workspace.py, operation_hunks_fully_selected in apply_patch_payload).
module MissedByHunks {
  import opened CodeSessions
  import opened Decimal
  import opened EditScripts
  import opened LostUpdates
  import opened MissedUpdates
  import opened PatchPayload
  import opened PatchSelection
  import opened SessionRuns
  import opened SharedIds
  import opened ShownEntries
  import opened Sublists
  import opened Workspace
  import opened WorkspacePreviews
  import opened Wrappers

  /** Between operation `i` and all later ones on its file, which can leave without it, a file is created under the id. */
  ghost predicate Torn(ops: seq<RawOp>, i: nat, k: nat) {
    && i < k < |ops| && OnFile(ops[i]) && HasText(ops[i]) && KindOf(ops[k]) == Create && !ops[k].file.FileId?
    && ops[k].operationId == ops[i].operationId
    && forall l :: k < l < |ops| && OnSameFile(ops[i], ops[l]) ==> !LeavesWith(ops[i], ops[l])
  }

  function Hunks(env: Env, op: RawOp, before: Lines): nat {
    HunkCount(env.diff(before, Wanted(op, before)))
  }

  /** On this text the later operations on the file have hunks, and operation `i` has more of them, or none at all. */
  ghost predicate Divides(env: Env, ops: seq<RawOp>, i: nat, k: nat, before: Lines)
    requires i < |ops|
  {
    forall l :: k < l < |ops| && OnSameFile(ops[i], ops[l]) && HasText(ops[l]) ==>
      0 < Hunks(env, ops[l], before) && (Hunks(env, ops[i], before) == 0 || Hunks(env, ops[l], before) < Hunks(env, ops[i], before))
  }

  /** The operation can be applied. */
  predicate Complete(op: RawOp) {
    (Targeted(op) ==> op.file.FileId?) && (KindOf(op) == Create && !op.file.FileId? ==> op.filename != "")
  }

  /** The matcher finds hunks exactly between different texts. */
  ghost predicate Matches(env: Env) {
    forall a: Lines, b: Lines :: HunkCount(env.diff(a, b)) == 0 <==> a == b
  }

  /** Such a matcher divides the very text that operation `i` wants, when the later ones want others. */
  lemma {:induction false} WantedTextDivides(env: Env, ops: seq<RawOp>, i: nat, k: nat)
    requires Torn(ops, i, k) && Matches(env) && ops[i].content != []
    requires forall l :: k < l < |ops| && OnSameFile(ops[i], ops[l]) && HasText(ops[l]) ==> ops[l].content != []
    ensures Divides(env, ops, i, k, ops[i].content)
  {
    hide KindOf;
    var before := ops[i].content;
    assert Wanted(ops[i], before) == before;
    forall l | k < l < |ops| && OnSameFile(ops[i], ops[l]) && HasText(ops[l])
      ensures Hunks(env, ops[i], before) == 0 < Hunks(env, ops[l], before)
    {
      assert !LeavesWith(ops[i], ops[l]);
      assert Wanted(ops[l], before) == ops[l].content != before;
    }
  }

  // ----- Applying all operations -----

  lemma CompleteName(st: Store, op: RawOp)
    requires Workable(op) && Complete(op) && KindOf(op) != Folder && (op.file.FileId? ==> NameStays(st, op.file.id))
    ensures TargetName(st, op).Ok? && SafeFilename(TargetName(st, op).value) == TargetName(st, op)
  {
    hide SafeFilename;
  }

  lemma CompleteApplies(env: Env, st: Store, op: RawOp)
    requires ReadsAll(env) && Workable(op) && Complete(op)
    requires op.file.FileId? ==> NameStays(st, op.file.id) && op.file.id in st.objects
    ensures Appliable(env, st, op)
    ensures var st1 := Effect(env, st, op).0;
      st.objects.Keys <= st1.objects.Keys && forall id :: NameStays(st, id) ==> NameStays(st1, id)
  {
    hide SafeFilename, KindOf, NewText, SizeOf, TargetName, OldText;
    if KindOf(op) != Folder {
      CompleteName(st, op);
    }
  }

  lemma {:induction false} AllComplete(env: Env, st: Store, ops: seq<RawOp>)
    requires ReadsAll(env) && forall op <- ops :: Workable(op) && Complete(op)
    requires forall op <- ops :: op.file.FileId? ==> NameStays(st, op.file.id) && op.file.id in st.objects
    ensures var p := ApplyAll(env, st, ops); p.ok && st.objects.Keys <= p.store.objects.Keys
    decreases |ops|
  {
    hide Workable, Complete, NameStays, Effect, Appliable, ReadsAll;
    if ops != [] {
      assert ops[0] in ops;
      CompleteApplies(env, st, ops[0]);
      AllComplete(env, Effect(env, st, ops[0]).0, ops[1..]);
    }
  }

  // ----- The selection -----

  function MaxHunks(env: Env, ops: seq<RawOp>, before: Lines): nat {
    if ops == [] then 0
    else
      var rest := MaxHunks(env, ops[1..], before);
      if Hunks(env, ops[0], before) > rest then Hunks(env, ops[0], before) else rest
  }

  lemma {:induction false} MaxIsLargest(env: Env, ops: seq<RawOp>, before: Lines, op: RawOp)
    requires op in ops
    ensures Hunks(env, op, before) <= MaxHunks(env, ops, before)
  {
    hide Hunks;
    if op != ops[0] {
      MaxIsLargest(env, ops[1..], before, op);
    }
  }

  function HunkId(id: string, file: nat, index: nat): string {
    id + "-" + Format(file) + "-" + Format(index)
  }

  /** The first hunks of the file, and the bare prefix, which belongs to no hunk. */
  function FirstHunks(id: string, file: nat, count: nat): set<string> {
    {id + "-"} + set index | 0 <= index < count :: HunkId(id, file, index)
  }

  lemma HunkIdInjective(id: string, file: nat, i: nat, j: nat)
    ensures HunkId(id, file, i) == HunkId(id, file, j) ==> i == j
    ensures HunkId(id, file, i) != id + "-"
  {
    hide Format;
    var prefix := id + "-" + Format(file) + "-";
    assert HunkId(id, file, i)[|prefix|..] == Format(i) && HunkId(id, file, j)[|prefix|..] == Format(j);
    if HunkId(id, file, i) == HunkId(id, file, j) {
      FormatInjective(i, j);
    }
  }

  lemma NotAmongFirst(id: string, file: nat, count: nat, i: nat)
    ensures HunkId(id, file, i) in FirstHunks(id, file, count) <==> i < count
  {
    hide HunkId;
    forall j: nat | HunkId(id, file, i) == HunkId(id, file, j) ensures i == j {
      HunkIdInjective(id, file, i, j);
    }
    HunkIdInjective(id, file, i, i);
  }

  lemma NewHunkElsewhere(op: RawOp, file: nat, count: nat, i: nat)
    ensures HunkName(op, None, i) !in FirstHunks(op.operationId, file, count)
  {
    hide Format;
    var name, id := HunkName(op, None, i), op.operationId;
    assert name[|id| + 1] == 'n';
    forall j: nat ensures name != HunkId(id, file, j) {
      FormatFirst(file);
      assert HunkId(id, file, j)[|id| + 1] == Format(file)[0];
    }
  }

  lemma FormatFirst(n: nat)
    ensures Format(n) != "" && '0' <= Format(n)[0] <= '9'
  {
  }

  /** So many hunks of the file that operation `i` is not applied in full, and the later ones on it are. */
  function SelectedCount(env: Env, ops: seq<RawOp>, op: RawOp, before: Lines): nat {
    if Hunks(env, op, before) > 0 then Hunks(env, op, before) - 1 else MaxHunks(env, ops, before)
  }

  function TearingSelection(env: Env, ops: seq<RawOp>, op: RawOp, before: Lines): Selection
    requires op.file.FileId?
  {
    Selection({}, {}, FirstHunks(op.operationId, op.file.id, SelectedCount(env, ops, op, before)))
  }

  /** The session in which the hunks are selected: nothing rejected, the file with its text. */
  ghost predicate Prepared(own: Env, st: Store, op: RawOp, before: Lines) {
    && op.file.FileId? && own.rejected == {} && ActiveTarget(st, op) && Read(own, st, op.file.id) == Some(before)
  }

  lemma PreparedText(own: Env, st: Store, op: RawOp, other: RawOp, before: Lines)
    requires Prepared(own, st, op, before) && OnSameFile(op, other)
    ensures Prepared(own, st, other, before)
    ensures HunkCount(ScriptOf(own, st, other)) == Hunks(own, other, before)
    ensures forall i: nat :: HunkName(other, Owner(st, other), i) == HunkId(op.operationId, op.file.id, i)
  {
    hide KindOf, Wanted, Format;
  }

  lemma TornIsPart(own: Env, st: Store, op: RawOp, before: Lines, count: nat)
    requires Prepared(own, st, op, before) && OnFile(op) && HasText(op)
    requires own.selected == FirstHunks(op.operationId, op.file.id, count)
    requires Hunks(own, op, before) == 0 || Hunks(own, op, before) == count + 1
    ensures !FullySelected(own, st, op)
  {
    hide KindOf, HunkName, FirstHunks, HunkId, Hunks, Prepared;
    PreparedText(own, st, op, op, before);
    PreparedRejects(own, st, op, before);
    if Hunks(own, op, before) > 0 {
      NotAmongFirst(op.operationId, op.file.id, count, count);
      assert PendingHunk(own, st, op, count);
    }
  }

  lemma PreparedRejects(own: Env, st: Store, op: RawOp, before: Lines)
    requires Prepared(own, st, op, before)
    ensures own.rejected == {}
  {
  }

  lemma LaterIsWhole(own: Env, st: Store, op: RawOp, later: RawOp, before: Lines, count: nat)
    requires Prepared(own, st, op, before) && OnSameFile(op, later)
    requires own.selected == FirstHunks(op.operationId, op.file.id, count)
    requires HasText(later) ==> 0 < Hunks(own, later, before) <= count
    ensures FullySelected(own, st, later)
  {
    hide KindOf, HunkName, FirstHunks, HunkId, Hunks, Prepared;
    PreparedText(own, st, op, later, before);
    PreparedRejects(own, st, op, before);
    if HasText(later) {
      assert PendingHunk(own, st, later, 0);
      forall j | 0 <= j < HunkCount(ScriptOf(own, st, later)) && PendingHunk(own, st, later, j)
        ensures HunkName(later, Owner(st, later), j) in own.selected
      {
        NotAmongFirst(op.operationId, op.file.id, count, j);
      }
    }
  }

  lemma CreationIsPart(own: Env, st: Store, created: RawOp, file: nat, count: nat)
    requires KindOf(created) == Create && !created.file.FileId?
    requires own.selected == FirstHunks(created.operationId, file, count)
    ensures !FullySelected(own, st, created)
  {
    hide HunkName, FirstHunks, ScriptOf;
    if exists i :: 0 <= i < HunkCount(ScriptOf(own, st, created)) && PendingHunk(own, st, created, i) {
      var i :| 0 <= i < HunkCount(ScriptOf(own, st, created)) && PendingHunk(own, st, created, i);
      NewHunkElsewhere(created, file, count, i);
    }
  }

  // ----- What the selection takes and leaves -----

  lemma BarePrefix(op: RawOp, hunks: set<string>)
    requires op.operationId + "-" in hunks
    ensures HasSelectedHunk(op, hunks)
  {
    var h := op.operationId + "-";
    assert h[..|h|] == h;
  }

  lemma TakesAll(ops: seq<RawOp>, id: string, file: nat, count: nat)
    requires forall op <- ops :: op.operationId == id
    ensures Applied(ops, Selection({}, {}, FirstHunks(id, file, count))) == ops
  {
    hide Filter, HasSelectedHunk, HunkId;
    var sel := Selection({}, {}, FirstHunks(id, file, count));
    forall op | op in ops ensures IsApplied(op, sel) {
      BarePrefix(op, sel.hunks);
    }
    FilterAll(ops, (op: RawOp) => IsApplied(op, sel));
  }

  lemma LeftByHunks(op: RawOp, file: nat, count: nat, whole: RawOp -> bool)
    ensures IsLeft(op, Selection({}, {}, FirstHunks(op.operationId, file, count)), whole) <==> !whole(op)
  {
    hide HasSelectedHunk, HunkId;
    BarePrefix(op, FirstHunks(op.operationId, file, count));
  }

  lemma MakersConcat(a: seq<RawOp>, b: seq<RawOp>, id: string)
    ensures Makers(a + b, id) == Makers(a, id) + Makers(b, id)
  {
    hide MakesEntry;
    FilterAppend(a, b, (op: RawOp) => op.operationId == id && MakesEntry(op));
  }

  /** When nothing on the file is left after the creation, the last entry left is none of the file. */
  lemma LeftEndsElsewhere(ops: seq<RawOp>, i: nat, k: nat, p: RawOp -> bool)
    requires i < k < |ops| && OnFile(ops[i]) && KindOf(ops[k]) == Create && !ops[k].file.FileId?
    requires ops[k].operationId == ops[i].operationId && p(ops[i]) && p(ops[k])
    requires forall l :: k < l < |ops| && OnFile(ops[l]) ==> !p(ops[l])
    ensures ops[i] in Filter(ops, p) && EndsElsewhere(Filter(ops, p), ops[i])
    ensures var makers := Makers(Filter(ops, p), ops[i].operationId); !OnFile(makers[|makers| - 1])
  {
    hide Filter, Makers, KindOf, OnFile;
    var id, rest := ops[i].operationId, ops[k + 1..];
    MakersAround(ops, k, p, id);
    FilterMember(ops, p, ops[i]);
    var tail := Makers(Filter(rest, p), id);
    if tail != [] {
      NotOnFileLater(ops, k, p, id);
    }
    OnFileNot(ops[k]);
    NeedsFile(ops[i]);
  }

  lemma MakersAround(ops: seq<RawOp>, k: nat, p: RawOp -> bool, id: string)
    requires k < |ops| && KindOf(ops[k]) == Create && ops[k].operationId == id && p(ops[k])
    ensures Makers(Filter(ops, p), id) == Makers(Filter(ops[..k], p), id) + ([ops[k]] + Makers(Filter(ops[k + 1..], p), id))
  {
    hide Filter, Makers, KindOf;
    var front, rest := ops[..k], ops[k + 1..];
    assert ops == front + ([ops[k]] + rest);
    FilterAppend(front, [ops[k]] + rest, p);
    FilterAppend([ops[k]], rest, p);
    MakersConcat(Filter(front, p), Filter([ops[k]], p) + Filter(rest, p), id);
    MakersConcat(Filter([ops[k]], p), Filter(rest, p), id);
    OneCreated(ops[k], p, id);
  }

  lemma NotOnFileLater(ops: seq<RawOp>, k: nat, p: RawOp -> bool, id: string)
    requires k < |ops| && forall l :: k < l < |ops| && OnFile(ops[l]) ==> !p(ops[l])
    ensures forall op <- Makers(Filter(ops[k + 1..], p), id) :: !OnFile(op)
  {
    hide Filter, Makers, OnFile;
    var rest := ops[k + 1..];
    forall op | op in Makers(Filter(rest, p), id) ensures !OnFile(op) {
      MakersMember(Filter(rest, p), id, op);
      FilterMember(rest, p, op);
      var l :| 0 <= l < |rest| && rest[l] == op;
      assert rest[l] == ops[k + 1 + l];
    }
  }

  lemma OneCreated(op: RawOp, p: RawOp -> bool, id: string)
    requires KindOf(op) == Create && op.operationId == id && p(op)
    ensures Makers(Filter([op], p), id) == [op]
  {
  }

  lemma OnFileNot(op: RawOp)
    ensures !op.file.FileId? ==> !OnFile(op)
  {
  }

  lemma NeedsFile(op: RawOp)
    ensures OnFile(op) ==> op.file.FileId?
  {
  }

  /** After the selection, operation `i` and the creation stay, and nothing later on the file. */
  lemma SelectionTears(own: Env, st: Store, ops: seq<RawOp>, i: nat, k: nat, before: Lines)
    requires Torn(ops, i, k) && Divides(own, ops, i, k, before) && Prepared(own, st, ops[i], before)
    requires forall op <- ops :: op.operationId == ops[i].operationId && (OnFile(op) ==> op.file == ops[i].file)
    requires own.selected == TearingSelection(own, ops, ops[i], before).hunks
    ensures var sel := TearingSelection(own, ops, ops[i], before);
      var left := Left(ops, sel, Whole(own, st));
      && Applied(ops, sel) == ops && ops[i] in left && EndsElsewhere(left, ops[i])
      && var makers := Makers(left, ops[i].operationId); !OnFile(makers[|makers| - 1])
  {
    hide Filter, FirstHunks, FullySelected, Makers, KindOf, Prepared, Hunks, MaxHunks, EndsElsewhere, LeavesWith;
    var op, f := ops[i], ops[i].file.id;
    var count, sel := SelectedCount(own, ops, op, before), TearingSelection(own, ops, op, before);
    var whole := Whole(own, st);
    TakesAll(ops, op.operationId, f, count);
    TornIsPart(own, st, op, before, count);
    CreationIsPart(own, st, ops[k], f, count);
    forall l | k < l < |ops| && OnFile(ops[l]) ensures whole(ops[l]) {
      MaxIsLargest(own, ops, before, ops[l]);
      assert OnSameFile(op, ops[l]);
      LaterIsWhole(own, st, op, ops[l], before, count);
    }
    forall o | o in ops ensures IsLeft(o, sel, whole) <==> !whole(o) {
      LeftByHunks(o, f, count, whole);
    }
    LeftEndsElsewhere(ops, i, k, (o: RawOp) => IsLeft(o, sel, whole));
  }

  // ----- The run -----

  lemma ApplyAllowed(env: Env, s: Session, sel: Selection)
    requires s.patch.Some? && Normalize(s.patch.value).Ok?
    requires var own, ops := EnvOf(env, s, sel), Pending(s.patch);
      !SelectionFails(own, s.work.store, ops, sel) && Applied(ops, sel) != []
    ensures var own, ops := EnvOf(env, s, sel), Pending(s.patch);
      Apply(env, s, sel, true) == Finish(own, s, Applied(ops, sel), Left(ops, sel, Whole(own, s.work.store)))
  {
    hide Normalize, SelectionFails, Applied, Left, Whole, Finish;
  }

  lemma AllReadable(env: Env, st: Store, ops: seq<RawOp>, sel: Selection)
    requires ReadsAll(env) && HasFiles(st, FilesOf(ops)) && forall op <- ops :: Workable(op)
    ensures !SelectionFails(env, st, ops, sel)
  {
    hide KindOf, Stable, HasSelectedHunk, Picked;
    forall op | op in ops ensures !op.file.BadFile? && Readable(env, st, op) {
      if op.file.FileId? {
        assert op.file.id in FilesOf(ops);
      }
    }
  }

  /** What an apply leaves when all its operations go through and the rest is previewed for the first time. */
  function Finished(env: Env, s: Session, ops: seq<RawOp>, left: seq<RawOp>): Session {
    var done := Between(env, s, ops, left);
    done.(preview := PreviewList(done.work.store, left, s.preview))
  }

  lemma FinishReaches(env: Env, s: Session, ops: seq<RawOp>, left: seq<RawOp>)
    requires ReadsAll(env) && ApplyAll(env, s.work.store, ops).ok && left != []
    requires forall op <- left :: Workable(op) && Normal(op)
    requires HasFiles(ApplyAll(env, s.work.store, ops).store, FilesOf(left))
    ensures Finish(env, s, ops, left) == (Finished(env, s, ops, left), Ok(ops))
    ensures Ready(env, Finished(env, s, ops, left)) && Pending(Finished(env, s, ops, left).patch) == left
  {
    hide ApplyAll, PreviewList, Normalize, Push, Normal, KindOf, AllPreviewable, HasFiles, Workable, Previewed;
    var done := Between(env, s, ops, left);
    WorkableSettled(left);
    RemainderReads(left);
    ReadsBackAfter(env, done, left);
    WorkablePreviews(env, done.work.store, left);
    PreviewGoesThrough(env, done);
  }

  lemma WorkableSettled(ops: seq<RawOp>)
    requires forall op <- ops :: Workable(op)
    ensures forall op <- ops :: Settled(op)
  {
  }

  function HunkActions(first: Store, sel: Selection, later: Store): seq<Action> {
    [VerdictAction({}), ChangeAction(first), ApplyAction(sel, true), ChangeAction(later)]
  }

  /** The session just before the hunks are applied. */
  function BeforeHunks(s: Session, first: Store): Session {
    s.(rejected := {}, work := s.work.(store := first))
  }

  lemma AfterHunks(env: Env, s: Session, first: Store, sel: Selection, later: Store)
    requires var r := Apply(env, BeforeHunks(s, first), sel, true);
      && r.1.Ok? && r.0.patch.Some? && r.0.work.store.records.Keys <= later.records.Keys
    requires sel.ids == {} && s.work.store.records.Keys <= first.records.Keys
    ensures var actions, u := HunkActions(first, sel, later), Apply(env, BeforeHunks(s, first), sel, true).0;
      && Possible(env, s, actions) && SamePatch(actions) && After(env, s, actions) == u.(work := u.work.(store := later))
      && SightsOf(env, s, actions) == [Sight(u.work.store, Pending(u.patch))]
  {
    hide Apply, Pending;
    var s0, s1 := s.(rejected := {}), BeforeHunks(s, first);
    var u := Apply(env, s1, sel, true).0;
    var a, b, c, d := VerdictAction({}), ChangeAction(first), ApplyAction(sel, true), ChangeAction(later);
    OneAction(env, s, a);
    OneAction(env, s0, b);
    OneAction(env, s1, c);
    OneAction(env, u, d);
    Joined(env, s1, [c], [d]);
    Joined(env, s0, [b], [c] + [d]);
    Joined(env, s, [a], [b] + ([c] + [d]));
    assert [a] + ([b] + ([c] + [d])) == HunkActions(first, sel, later);
    var sight := Sight(u.work.store, Pending(u.patch));
    assert [] + ([] + (([] + [sight]) + [])) == [sight];
  }

  lemma CalmAfterHunks(st: Store, later: Store, ops: seq<RawOp>, op: RawOp)
    requires op in ops && OnFile(op) && OnlyWith(ops, op.operationId) && HasFiles(st, FilesOf(ops))
    requires var makers := Makers(ops, op.operationId); makers != [] && !OnFile(makers[|makers| - 1])
    ensures Calm(later, ops, PreviewList(st, ops, []))
  {
    hide Find, PreviewOf, Makers, KindOf, ChecksumOf, PreviewList;
    var id := op.operationId;
    var last := Makers(ops, id)[|Makers(ops, id)| - 1];
    MakersMember(ops, id, last);
    forall o | o in ops && o.file.FileId? ensures o.file.id in st.records {
      InFiles(st, ops, o);
    }
    LastMakerFound(st, ops, [], id);
    BaseOfEntry(st, last, []);
    NothingFound(id);
  }

  lemma OtherText(sum: Option<Checksum>) returns (text: Lines)
    ensures sum != Some(Sha256(text))
  {
    text := if sum == Some(Sha256(BEFORE)) then AFTER else BEFORE;
  }

  /** What the selection leaves can be worked on. */
  lemma PartOf(ops: seq<RawOp>, sel: Selection, whole: RawOp -> bool)
    ensures forall op <- Left(ops, sel, whole) :: op in ops
  {
    hide Filter, IsLeft;
    forall op | op in Left(ops, sel, whole) ensures op in ops {
      FilterMember(ops, (o: RawOp) => IsLeft(o, sel, whole), op);
    }
  }

  lemma PreparedFile(env: Env, s: Session, files: set<nat>, text: Lines, sel: Selection, op: RawOp)
    requires ReadsAll(env) && OnFile(op) && op.file.id in files
    ensures var st := Filled(s.work.store, files, text);
      Prepared(EnvOf(env, BeforeHunks(s, st), sel), st, op, env.read(NAME, text).value)
  {
    hide SizeOf, KindOf;
  }

  /** The apply of the hunks goes through, and tears the operation from the later ones on its file. */
  lemma HunksTear(env: Env, s: Session, i: nat, k: nat, text: Lines) returns (sel: Selection, left: seq<RawOp>)
    requires Ready(env, s) && s.preview == []
    requires var ops := Pending(s.patch);
      && ReadsAll(env) && Torn(ops, i, k) && (forall op <- ops :: Complete(op))
      && (forall op <- ops :: op.operationId == ops[i].operationId && (OnFile(op) ==> op.file == ops[i].file))
      && Divides(env, ops, i, k, env.read(NAME, text).value)
    ensures var ops, first := Pending(s.patch), Filled(s.work.store, FilesOf(Pending(s.patch)), text);
      var s1 := BeforeHunks(s, first);
      var own := EnvOf(env, s1, sel);
      && sel.ids == {} && ops[i] in left && (forall op <- left :: op in ops)
      && Apply(env, s1, sel, true) == (Finished(own, s1, ops, left), Ok(ops))
      && Ready(own, Finished(own, s1, ops, left)) && Pending(Finished(own, s1, ops, left).patch) == left
      && HasFiles(Finished(own, s1, ops, left).work.store, FilesOf(left))
      && var makers := Makers(left, ops[i].operationId); makers != [] && !OnFile(makers[|makers| - 1])
  {
    hide Normalize, KindOf, Workable, Pending, Filter, Apply, PreviewList, Filled, Makers, HasFiles, Complete, Normal,
      ApplyAll, FirstHunks, Hunks, MaxHunks, Prepared, Whole, Finish, SelectionFails, ReadsAll, Torn;
    var ops := Pending(s.patch);
    ReadsText(env, text);
    TornIsOnFile(ops, i, k);
    var op, before := ops[i], env.read(NAME, text).value;
    var files := FilesOf(ops);
    var first := Filled(s.work.store, files, text);
    var s1 := BeforeHunks(s, first);
    sel := TearingSelection(env, ops, op, before);
    var own := EnvOf(env, s1, sel);
    SameReader(env, own);
    FilledOthers(s.work.store, files, text);
    InFilesOf(ops, op);
    PreparedFile(env, s, files, text, sel, op);
    SameDiff(env, own, ops, op, before);
    SelectionTears(own, first, ops, i, k, before);
    left := Left(ops, sel, Whole(own, first));
    PartOf(ops, sel, Whole(own, first));
    AllReadable(own, first, ops, sel);
    ApplyAllowed(env, s1, sel);
    PendingNormal(s.patch);
    forall o | o in ops && o.file.FileId? ensures NameStays(first, o.file.id) && o.file.id in first.objects {
      InFilesOf(ops, o);
      FilledFiles(s.work.store, files, text, o.file.id);
    }
    AllComplete(own, first, ops);
    FilesStay(own, first, ops, ops, left);
    FinishReaches(own, s1, ops, left);
  }

  lemma ReadsText(env: Env, text: Lines)
    requires ReadsAll(env)
    ensures env.read(NAME, text).Some?
  {
  }

  lemma TornIsOnFile(ops: seq<RawOp>, i: nat, k: nat)
    requires Torn(ops, i, k)
    ensures i < k < |ops| && OnFile(ops[i]) && ops[i].file.FileId?
  {
  }

  lemma InFilesOf(ops: seq<RawOp>, op: RawOp)
    requires op in ops && op.file.FileId?
    ensures op.file.id in FilesOf(ops)
  {
  }

  lemma SameDiff(env: Env, own: Env, ops: seq<RawOp>, op: RawOp, before: Lines)
    requires own.diff == env.diff && op.file.FileId?
    ensures forall o: RawOp :: Hunks(own, o, before) == Hunks(env, o, before)
    ensures TearingSelection(own, ops, op, before) == TearingSelection(env, ops, op, before)
  {
    hide FirstHunks, KindOf;
    SameMax(env, own, ops, before);
  }

  lemma {:induction false} SameMax(env: Env, own: Env, ops: seq<RawOp>, before: Lines)
    requires own.diff == env.diff
    ensures MaxHunks(own, ops, before) == MaxHunks(env, ops, before)
  {
    hide Wanted;
    if ops != [] {
      SameMax(env, own, ops[1..], before);
    }
  }

  /** With all operations under one id, a change made after the hunks have been applied is missed. */
  lemma TornIsMissed(env: Env, s: Session, i: nat, k: nat, text: Lines) returns (actions: seq<Action>)
    requires Ready(env, s) && s.preview == []
    requires var ops := Pending(s.patch);
      && ReadsAll(env) && Torn(ops, i, k) && (forall op <- ops :: Complete(op))
      && (forall op <- ops :: op.operationId == ops[i].operationId && (OnFile(op) ==> op.file == ops[i].file))
      && Divides(env, ops, i, k, env.read(NAME, text).value)
    ensures var op := Pending(s.patch)[i]; op.file.FileId? && Misses(env, s, actions, OnlyFile(op.file.id), op)
  {
    hide Normalize, KindOf, Workable, Pending, Filter, Apply, PreviewList, Filled, Makers, HasFiles, Complete, ApplyAll, Hunks,
      ReadsAll, Torn, After, Possible, SightsOf, Misses, ChecksumOf, NameStays, Divides, Finished;
    var ops := Pending(s.patch);
    TornIsOnFile(ops, i, k);
    var op := ops[i];
    var first := Filled(s.work.store, FilesOf(ops), text);
    FilledOthers(s.work.store, FilesOf(ops), text);
    var sel, left := HunksTear(env, s, i, k, text);
    var own := EnvOf(env, BeforeHunks(s, first), sel);
    var u := Finished(own, BeforeHunks(s, first), ops, left);
    FinishedPreview(own, BeforeHunks(s, first), ops, left);
    var other := OtherText(ChecksumOf(u.work.store, op.file.id));
    var later := Filled(u.work.store, FilesOf(left), other);
    FilledOthers(u.work.store, FilesOf(left), other);
    InFilesOf(left, op);
    FilledFiles(u.work.store, FilesOf(left), other, op.file.id);
    AfterHunks(env, s, first, sel, later);
    InFiles(u.work.store, left, op);
    CalmAfterHunks(u.work.store, later, left, op);
    ReadyLike(env, own, u, later);
    actions := HunkActions(first, sel, later);
    ChangeIsMissed(env, s, actions, Sight(u.work.store, left), op);
  }

  lemma FinishedPreview(env: Env, s: Session, ops: seq<RawOp>, left: seq<RawOp>)
    ensures var u := Finished(env, s, ops, left); u.preview == PreviewList(u.work.store, left, s.preview)
  {
    hide PreviewList, ApplyAll;
  }

  lemma ReadyLike(env: Env, own: Env, u: Session, later: Store)
    requires Ready(own, u) && ReadsAll(env)
    ensures Ready(env, u.(work := u.work.(store := later)))
  {
    hide Normalize, Workable;
  }
}
