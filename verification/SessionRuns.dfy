// Runs of one code session: nothing pending is lost or taken twice.
module SessionRuns {
  import opened CodeSessions
  import opened PatchPayload
  import opened PatchSelection
  import opened Strings
  import opened Sublists
  import opened Workspace
  import opened WorkspacePreviews
  import opened Wrappers

  /** The calls on a session, the user's verdicts on hunks, and any other change of its files. */
  datatype Action =
    | GenerateAction(payload: Payload)
    | PreviewAction
    | ApplyAction(sel: Selection, allowConflicts: bool)
    | RejectAction(files: set<nat>, ids: set<string>)
    | RollbackAction(index: Option<nat>)
    | VerdictAction(rejected: set<string>)
    | ChangeAction(store: Store)

  /** Blank ids never get into a selection; records are marked deleted, never removed. */
  predicate Enabled(s: Session, a: Action) {
    && (a.ApplyAction? ==> forall id <- a.sel.ids :: !Blank(id))
    && (a.RejectAction? ==> forall id <- a.ids :: !Blank(id))
    && (a.ChangeAction? ==> s.work.store.records.Keys <= a.store.records.Keys)
  }

  function Next(env: Env, s: Session, a: Action): Session {
    match a
    case GenerateAction(p) => Generate(env, s, p).0
    case PreviewAction => (var r := Previewed(env, s); if r.Ok? then r.value else s)
    case ApplyAction(sel, allow) => Apply(env, s, sel, allow).0
    case RejectAction(files, ids) => (var r := Reject(s, files, ids); if r.Ok? then r.value.0 else s)
    case RollbackAction(index) => (var r := Rollback(s.work, index); if r.Ok? then s.(work := r.value) else s)
    case VerdictAction(rejected) => s.(rejected := rejected)
    case ChangeAction(store) => s.(work := s.work.(store := store))
  }

  /** The operations an action takes out of the pending patch; a new patch takes the place of all of them. */
  function TakenBy(env: Env, s: Session, a: Action): seq<RawOp> {
    match a
    case GenerateAction(_) => Pending(s.patch)
    case ApplyAction(sel, allow) => (var r := Apply(env, s, sel, allow).1; if r.Ok? then r.value else [])
    case RejectAction(files, ids) =>
      (var r := Reject(s, files, ids);
       if r.Err? then [] else if r.value.1.Taken? then r.value.1.ops else Pending(s.patch))
    case _ => []
  }

  function After(env: Env, s: Session, actions: seq<Action>): Session
    decreases |actions|
  {
    if actions == [] then s else After(env, Next(env, s, actions[0]), actions[1..])
  }

  function Consumed(env: Env, s: Session, actions: seq<Action>): seq<RawOp>
    decreases |actions|
  {
    if actions == [] then [] else TakenBy(env, s, actions[0]) + Consumed(env, Next(env, s, actions[0]), actions[1..])
  }

  /** The operations of a patch that is generated. */
  function Arriving(a: Action): seq<RawOp> {
    if a.GenerateAction? then Pending(Some(a.payload)) else []
  }

  function Generated(actions: seq<Action>): seq<RawOp> {
    if actions == [] then [] else Arriving(actions[0]) + Generated(actions[1..])
  }

  // ----- Conservation -----

  /** A patch of operations that can be read, and whose names stay as they are once normalised. */
  predicate Lasting(patch: Option<Payload>) {
    patch.Some? ==>
      && !FilesShaped(patch.value) && Normalize(patch.value).Ok?
      && forall op <- Normalize(patch.value).value :: Settled(op)
  }

  /** Short names are enough. */
  lemma {:induction false} ShortNamesLast(p: Payload)
    requires !FilesShaped(p) && Normalize(p).Ok?
    requires AllShort(p.operations.value, false) && AllShort(p.files, true)
    ensures Lasting(Some(p))
  {
    hide NormalizeItems, AllShort, Settled;
    NormalizedPayload(p);
  }

  lemma RemainderLasts(ops: seq<RawOp>)
    requires (forall op <- ops :: Normal(op)) && forall op <- ops :: Settled(op)
    ensures Lasting(Remainder(ops)) && Pending(Remainder(ops)) == ops
  {
    hide Normal, Settled, NormalizeItems;
    RemainderReads(ops);
  }

  lemma PendingNormal(patch: Option<Payload>)
    requires patch.Some? && Normalize(patch.value).Ok?
    ensures Pending(patch) == Normalize(patch.value).value && forall op <- Pending(patch) :: Normal(op)
  {
    hide Normal, Settled, NormalizeItems, AllShort;
    NormalizedPayload(patch.value);
  }

  lemma {:induction false} AllLeft<T>(s: seq<T>)
    ensures Interleaving(s, [], s)
  {
    if s != [] {
      AllLeft(s[1..]);
    }
  }

  lemma {:induction false} AllTaken<T>(s: seq<T>)
    ensures Interleaving(s, s, [])
  {
    if s != [] {
      AllTaken(s[1..]);
    }
  }

  lemma FinishPatch(env: Env, s: Session, taken: seq<RawOp>, left: seq<RawOp>)
    ensures var (s', r) := Finish(env, s, taken, left);
      if r.Ok? then r.value == taken && s'.patch == Remainder(left) else s'.patch == s.patch
  {
    hide ApplyAll, PreviewAll, Normalize, Remainder;
  }

  /** An apply that goes through ends in `Finish`, on the session itself or on the one just previewed. */
  lemma ApplyFinishes(env: Env, s: Session, sel: Selection, allow: bool) returns (shown: Session)
    requires Apply(env, s, sel, allow).1.Ok?
    ensures s.patch.Some? && Normalize(s.patch.value).Ok?
    ensures var own, ops := EnvOf(env, s, sel), Normalize(s.patch.value).value;
      && (if allow then shown == s else Previewed(own, s) == Ok(shown) && !ConflictTouches(shown.preview, Applied(ops, sel)))
      && shown.work == s.work && shown.patch == s.patch && shown.rejected == s.rejected
      && Apply(env, s, sel, allow) == Finish(own, shown, Applied(ops, sel), Left(ops, sel, Whole(own, s.work.store)))
  {
    hide ApplyAll, PreviewAll, Normalize, Applied, Left, Whole, SelectionFails, ConflictTouches, Finish;
    var own := EnvOf(env, s, sel);
    shown := if allow then s else Previewed(own, s).value;
  }

  lemma FailedKeepsPatch(env: Env, s: Session, sel: Selection, allow: bool)
    requires Apply(env, s, sel, allow).1.Err?
    ensures Apply(env, s, sel, allow).0.patch == s.patch
  {
    hide ApplyAll, PreviewAll, Normalize, Remainder, Applied, Left, Whole, SelectionFails, ConflictTouches;
  }

  lemma ApplyPatch(env: Env, s: Session, sel: Selection, allow: bool)
    ensures var (s', r) := Apply(env, s, sel, allow);
      if r.Err? then s'.patch == s.patch
      else
        && s.patch.Some? && Normalize(s.patch.value).Ok?
        && var ops := Normalize(s.patch.value).value;
           r.value == Applied(ops, sel) && s'.patch == Remainder(Left(ops, sel, Whole(EnvOf(env, s, sel), s.work.store)))
  {
    hide Apply, Previewed, Normalize, Remainder, Applied, Left, Whole, ConflictTouches, Finish;
    if Apply(env, s, sel, allow).1.Ok? {
      var shown := ApplyFinishes(env, s, sel, allow);
      var own, ops := EnvOf(env, s, sel), Normalize(s.patch.value).value;
      FinishPatch(own, shown, Applied(ops, sel), Left(ops, sel, Whole(own, s.work.store)));
    } else {
      FailedKeepsPatch(env, s, sel, allow);
    }
  }

  lemma ApplySharesOut(env: Env, s: Session, sel: Selection, allow: bool)
    requires Lasting(s.patch) && sel.hunks == {}
    ensures var a := ApplyAction(sel, allow);
      && Lasting(Next(env, s, a).patch)
      && Interleaving(Pending(s.patch), TakenBy(env, s, a), Pending(Next(env, s, a).patch))
  {
    hide Normal, Settled, Normalize, Interleaving, Filter, Apply, Whole, Remainder, Pending, FilesShaped;
    ApplyPatch(env, s, sel, allow);
    AllLeft(Pending(s.patch));
    if Apply(env, s, sel, allow).1.Ok? {
      PendingNormal(s.patch);
      var ops := Pending(s.patch);
      var whole := Whole(EnvOf(env, s, sel), s.work.store);
      SelectionsShareOut(ops, sel, whole);
      FilterKeepsNormal(ops, (op: RawOp) => IsLeft(op, sel, whole));
      RemainderLasts(Left(ops, sel, whole));
    }
  }

  lemma RejectSharesOut(env: Env, s: Session, files: set<nat>, ids: set<string>)
    requires Lasting(s.patch)
    ensures var a := RejectAction(files, ids);
      && Lasting(Next(env, s, a).patch)
      && Interleaving(Pending(s.patch), TakenBy(env, s, a), Pending(Next(env, s, a).patch))
  {
    hide Normal, Settled, Normalize, Interleaving, Filter, Remainder, RawPicked;
    AllTaken(Pending(s.patch));
    if s.patch.Some? && !(files == {} && ids == {}) {
      PendingNormal(s.patch);
      var ops := Pending(s.patch);
      FiltersInterleave(ops, (op: RawOp) => Picked(op, files, ids), (op: RawOp) => !Picked(op, files, ids));
      FilterKeepsNormal(ops, (op: RawOp) => !Picked(op, files, ids));
      RemainderLasts(Filter(ops, (op: RawOp) => !Picked(op, files, ids)));
    }
  }

  /** One call on the pending patch shares its operations out between what it takes and what stays pending. */
  lemma {:induction false} NextSharesOut(env: Env, s: Session, a: Action)
    requires Lasting(s.patch) && (a.ApplyAction? ==> a.sel.hunks == {}) && !a.GenerateAction?
    ensures Lasting(Next(env, s, a).patch)
    ensures Interleaving(Pending(s.patch), TakenBy(env, s, a), Pending(Next(env, s, a).patch))
  {
    hide Interleaving, Apply, Reject, Lasting, Pending, Rollback, PreviewAll, Normalize;
    AllLeft(Pending(s.patch));
    match a
    case ApplyAction(sel, allow) => ApplySharesOut(env, s, sel, allow);
    case RejectAction(files, ids) => RejectSharesOut(env, s, files, ids);
    case _ =>
  }

  /** The action selects no hunks, and a patch it generates lasts. */
  predicate Conserving(a: Action) {
    (a.ApplyAction? ==> a.sel.hunks == {}) && (a.GenerateAction? ==> Lasting(Some(a.payload)))
  }

  lemma GeneratedPatch(env: Env, s: Session, p: Payload)
    ensures Generate(env, s, p).0.patch == Some(p)
  {
    hide Normalize, PreviewAll;
  }

  lemma NextConserves(env: Env, s: Session, a: Action)
    requires Lasting(s.patch) && Conserving(a)
    ensures var s' := Next(env, s, a);
      && Lasting(s'.patch)
      && multiset(Pending(s.patch)) + multiset(Arriving(a)) == multiset(TakenBy(env, s, a)) + multiset(Pending(s'.patch))
  {
    hide Lasting, Pending, Interleaving, Generate, Apply, Reject, Rollback, Previewed;
    if a.GenerateAction? {
      GeneratedPatch(env, s, a.payload);
    } else {
      NextSharesOut(env, s, a);
      InterleavingKeepsAll(Pending(s.patch), TakenBy(env, s, a), Pending(Next(env, s, a).patch));
    }
  }

  lemma Accounts<T>(before: seq<T>, come: seq<T>, gone: seq<T>, between: seq<T>, comeLater: seq<T>, goneLater: seq<T>, after: seq<T>)
    requires multiset(before) + multiset(come) == multiset(gone) + multiset(between)
    requires multiset(between) + multiset(comeLater) == multiset(goneLater) + multiset(after)
    ensures multiset(before) + multiset(come + comeLater) == multiset(gone + goneLater) + multiset(after)
  {
    var a, b, c := multiset(before) + multiset(come) + multiset(comeLater), multiset(gone) + multiset(between) + multiset(comeLater),
      multiset(gone) + multiset(goneLater) + multiset(after);
    assert a == b;
    assert b == multiset(gone) + (multiset(between) + multiset(comeLater)) == c;
    assert multiset(before) + multiset(come + comeLater) == a;
    assert multiset(gone + goneLater) + multiset(after) == c;
  }

  /** Over any run of generations, previews, partial applies, rejects and rollbacks, refused calls included, every operation
      that was pending or generated is still pending or was taken exactly once. */
  lemma {:induction false} RunConservesOperations(env: Env, s: Session, actions: seq<Action>)
    requires Lasting(s.patch) && forall a <- actions :: Conserving(a)
    ensures var t := After(env, s, actions);
      multiset(Pending(s.patch)) + multiset(Generated(actions)) == multiset(Consumed(env, s, actions)) + multiset(Pending(t.patch))
    ensures After(env, s, actions).patch == None ==>
      multiset(Consumed(env, s, actions)) == multiset(Pending(s.patch)) + multiset(Generated(actions))
    decreases |actions|
  {
    hide Lasting, Next, TakenBy, Pending, Conserving, Arriving;
    if actions != [] {
      var s' := Next(env, s, actions[0]);
      NextConserves(env, s, actions[0]);
      RunConservesOperations(env, s', actions[1..]);
      Accounts(Pending(s.patch), Arriving(actions[0]), TakenBy(env, s, actions[0]), Pending(s'.patch), Generated(actions[1..]),
               Consumed(env, s', actions[1..]), Pending(After(env, s', actions[1..]).patch));
    }
    NothingPending();
  }

  lemma NothingPending()
    ensures Pending(None) == []
  {
  }

  // ----- Rejecting file items -----

  /** Rejecting a file item by the id it is shown with: a blank id selects nothing, so the whole patch is dropped;
      otherwise the item is taken if and only if that id is its own operation id. */
  lemma {:induction false} RejectByShownId(s: Session, i: nat)
    requires s.patch.Some? && FilesShaped(s.patch.value) && i < |s.patch.value.files|
    requires forall j :: 0 <= j < |s.patch.value.files| ==> s.patch.value.files[j].Some?
    ensures var raws := s.patch.value.files;
      var r := Reject(s, {}, SelectedIds([ShownId(raws, i)]));
      && r.Ok?
      && (Blank(ShownId(raws, i)) ==> r.value == (s.(patch := None, preview := []), Dropped(s.preview)))
      && (!Blank(ShownId(raws, i)) ==>
            r.value.1.Taken? && (raws[i].value in r.value.1.ops <==> raws[i].value.operationId != ""))
  {
    hide Blank, RawPicked, ShownId, Filter, KeptItems;
    var raws := s.patch.value.files;
    var id := ShownId(raws, i);
    ShownIdRejects(raws, i);
    if Blank(id) {
      assert SelectedIds([id]) == {};
    } else {
      assert id in SelectedIds([id]);
      assert SelectedIds([id]) == {id};
    }
  }
}
