// Selecting parts of a pending patch: what a selection takes, what it leaves, and what happens to the ids
// (backend/services/agent/code_workspace.py, reject_patch_payload and the selection of apply_patch_payload).
module PatchSelection {
  import opened Decimal
  import opened PatchPayload
  import opened Strings
  import opened Sublists
  import opened Wrappers

  // ----- Selections -----

  datatype Selection = Selection(files: set<nat>, ids: set<string>, hunks: set<string>)

  /** Blank ids never select anything. */
  function SelectedIds(ids: seq<string>): set<string> {
    set id <- ids | !Blank(id)
  }

  predicate NothingSelected(sel: Selection) {
    sel.files == {} && sel.ids == {} && sel.hunks == {}
  }

  predicate Picked(op: RawOp, files: set<nat>, ids: set<string>) {
    (op.file.FileId? && op.file.id in files) || op.operationId in ids
  }

  predicate HasSelectedHunk(op: RawOp, hunks: set<string>) {
    exists h <- hunks :: StartsWith(h, op.operationId + "-")
  }

  predicate IsApplied(op: RawOp, sel: Selection) {
    NothingSelected(sel) || Picked(op, sel.files, sel.ids) || HasSelectedHunk(op, sel.hunks)
  }

  /** `whole`: all pending hunks of the operation are selected. */
  predicate IsLeft(op: RawOp, sel: Selection, whole: RawOp -> bool) {
    !NothingSelected(sel) && !Picked(op, sel.files, sel.ids) && (!HasSelectedHunk(op, sel.hunks) || !whole(op))
  }

  function Applied(ops: seq<RawOp>, sel: Selection): seq<RawOp> {
    Filter(ops, (op: RawOp) => IsApplied(op, sel))
  }

  function Left(ops: seq<RawOp>, sel: Selection, whole: RawOp -> bool): seq<RawOp> {
    Filter(ops, (op: RawOp) => IsLeft(op, sel, whole))
  }

  /** Without hunk selections, what is applied and what is left share the operations out, each in their order. */
  lemma {:induction false} SelectionsShareOut(ops: seq<RawOp>, sel: Selection, whole: RawOp -> bool)
    requires sel.hunks == {}
    ensures Interleaving(ops, Applied(ops, sel), Left(ops, sel, whole))
  {
    FiltersInterleave(ops, (op: RawOp) => IsApplied(op, sel), (op: RawOp) => IsLeft(op, sel, whole));
  }

  // ----- What stays pending -----

  function Remainder(ops: seq<RawOp>): Option<Payload> {
    if ops == [] then None else Some(Payload(Some(Wrapped(ops)), []))
  }

  /** The operations of a patch, none if it cannot be read. */
  function Pending(patch: Option<Payload>): seq<RawOp> {
    if patch.Some? && Normalize(patch.value).Ok? then Normalize(patch.value).value else []
  }

  /** A payload without operations keeps its file items as they are. */
  predicate FilesShaped(p: Payload) {
    p.operations.None? || p.operations.value == []
  }

  lemma NoFiles()
    ensures NormalizeItems([], true, 0) == Ok([])
  {
  }

  lemma {:induction false} RemainderReads(ops: seq<RawOp>)
    requires forall op <- ops :: Normal(op) && Settled(op)
    ensures Pending(Remainder(ops)) == ops
    ensures ops != [] ==> Normalize(Remainder(ops).value) == Ok(ops)
  {
    hide Normal, Settled, NormalizeItems;
    if ops != [] {
      NormalizeAgain(ops, 0);
      NoFiles();
      assert ops + [] == ops;
    }
  }

  /** Whatever the names do, a remainder that can still be read has the same operations, ids and files. */
  lemma RemainderKeepsTargets(ops: seq<RawOp>)
    requires ops != [] && (forall op <- ops :: Normal(op)) && Normalize(Remainder(ops).value).Ok?
    ensures var ops' := Normalize(Remainder(ops).value).value;
      |ops'| == |ops| && forall i :: 0 <= i < |ops| ==> SameTargets(ops[i], ops'[i]) && Normal(ops'[i])
  {
    hide Normal, NormalizeItems, SameTargets;
    NormalizeKeepsTargets(ops, 0);
    NoFiles();
    var r := NormalizeItems(Wrapped(ops), false, 0);
    assert r.value + [] == r.value;
  }

  lemma {:induction false} FilterKeepsNormal(ops: seq<RawOp>, p: RawOp -> bool)
    ensures (forall op <- ops :: Normal(op)) ==> forall op <- Filter(ops, p) :: Normal(op)
    ensures (forall op <- ops :: Settled(op)) ==> forall op <- Filter(ops, p) :: Settled(op)
  {
    hide Normal, Settled;
    forall op | op in Filter(ops, p) ensures op in ops {
      FilterMember(ops, p, op);
    }
  }

  // ----- The items of a files list -----

  function RawPicked(raws: seq<Option<RawOp>>, files: set<nat>, ids: set<string>, picked: bool): seq<RawOp>
    requires forall i :: 0 <= i < |raws| ==> raws[i].Some?
  {
    if raws == [] then []
    else (if Picked(raws[0].value, files, ids) == picked then [raws[0].value] else []) + RawPicked(raws[1..], files, ids, picked)
  }

  lemma RawPickedStep(raws: seq<Option<RawOp>>, files: set<nat>, ids: set<string>, picked: bool, i: nat)
    requires (forall j :: 0 <= j < |raws| ==> raws[j].Some?) && i <= |raws|
    ensures RawPicked(raws[i..], files, ids, picked) ==
      if i == |raws| then []
      else (if Picked(raws[i].value, files, ids) == picked then [raws[i].value] else []) +
           RawPicked(raws[i + 1..], files, ids, picked)
  {
    if i < |raws| {
      assert raws[i..][1..] == raws[i + 1..];
    }
  }

  lemma AppendShift(done: seq<RawOp>, x: RawOp, rest: seq<RawOp>)
    ensures done + ([x] + rest) == done + [x] + rest && done + ([] + rest) == done + rest
  {
    assert [] + rest == rest;
  }

  /** One turn of the loop below. */
  lemma ShareStep(raws: seq<Option<RawOp>>, files: set<nat>, ids: set<string>, picked: bool, i: nat, done: seq<RawOp>, all: seq<RawOp>)
    requires (forall j :: 0 <= j < |raws| ==> raws[j].Some?) && i < |raws|
    requires done + RawPicked(raws[i..], files, ids, picked) == all
    ensures var more := if Picked(raws[i].value, files, ids) == picked then done + [raws[i].value] else done;
      more + RawPicked(raws[i + 1..], files, ids, picked) == all
  {
    hide RawPicked, Picked;
    RawPickedStep(raws, files, ids, picked, i);
    AppendShift(done, raws[i].value, RawPicked(raws[i + 1..], files, ids, picked));
  }

  /** The loop over the file items: each goes to one of the two lists. */
  method ShareFiles(raws: seq<Option<RawOp>>, files: set<nat>, ids: set<string>) returns (taken: seq<RawOp>, left: seq<RawOp>)
    requires forall i :: 0 <= i < |raws| ==> raws[i].Some?
    ensures taken == RawPicked(raws, files, ids, true) && left == RawPicked(raws, files, ids, false)
  {
    hide RawPicked, Picked;
    taken, left := [], [];
    assert raws[0..] == raws;
    for i := 0 to |raws|
      invariant taken + RawPicked(raws[i..], files, ids, true) == RawPicked(raws, files, ids, true)
      invariant left + RawPicked(raws[i..], files, ids, false) == RawPicked(raws, files, ids, false)
    {
      ShareStep(raws, files, ids, true, i, taken, RawPicked(raws, files, ids, true));
      ShareStep(raws, files, ids, false, i, left, RawPicked(raws, files, ids, false));
      if Picked(raws[i].value, files, ids) {
        taken := taken + [raws[i].value];
      } else {
        left := left + [raws[i].value];
      }
    }
    RawPickedStep(raws, files, ids, true, |raws|);
    RawPickedStep(raws, files, ids, false, |raws|);
  }

  lemma {:induction false} RawPickedMember(raws: seq<Option<RawOp>>, files: set<nat>, ids: set<string>, picked: bool, x: RawOp)
    requires forall i :: 0 <= i < |raws| ==> raws[i].Some?
    ensures x in RawPicked(raws, files, ids, picked) <==> Some(x) in raws && Picked(x, files, ids) == picked
  {
    hide Picked;
    if raws != [] {
      RawPickedMember(raws[1..], files, ids, picked, x);
      assert raws == [raws[0]] + raws[1..];
    }
  }

  lemma RawPickedCons(x: Option<RawOp>, raws: seq<Option<RawOp>>, files: set<nat>, ids: set<string>, picked: bool)
    requires x.Some? && forall i :: 0 <= i < |raws| ==> raws[i].Some?
    ensures RawPicked([x] + raws, files, ids, picked) ==
      (if Picked(x.value, files, ids) == picked then [x.value] else []) + RawPicked(raws, files, ids, picked)
  {
    hide Picked;
    assert ([x] + raws)[1..] == raws;
  }

  lemma {:induction false} RawPickedConcat(a: seq<Option<RawOp>>, b: seq<Option<RawOp>>, files: set<nat>, ids: set<string>, picked: bool)
    requires (forall i :: 0 <= i < |a| ==> a[i].Some?) && forall i :: 0 <= i < |b| ==> b[i].Some?
    ensures RawPicked(a + b, files, ids, picked) == RawPicked(a, files, ids, picked) + RawPicked(b, files, ids, picked)
  {
    hide Picked, RawPicked;
    if a == [] {
      assert a + b == b;
      NoneRawPicked(files, ids, picked);
      assert [] + RawPicked(b, files, ids, picked) == RawPicked(b, files, ids, picked);
    } else {
      var rest := a[1..];
      assert a == [a[0]] + rest && a + b == [a[0]] + (rest + b);
      RawPickedConcat(rest, b, files, ids, picked);
      RawPickedCons(a[0], rest, files, ids, picked);
      RawPickedCons(a[0], rest + b, files, ids, picked);
      var head := if Picked(a[0].value, files, ids) == picked then [a[0].value] else [];
      Associates(head, RawPicked(rest, files, ids, picked), RawPicked(b, files, ids, picked));
    }
  }

  lemma NoneRawPicked(files: set<nat>, ids: set<string>, picked: bool)
    ensures RawPicked([], files, ids, picked) == []
  {
  }

  lemma {:induction false} RawPickedSizes(raws: seq<Option<RawOp>>, files: set<nat>, ids: set<string>)
    requires forall i :: 0 <= i < |raws| ==> raws[i].Some?
    ensures |RawPicked(raws, files, ids, true)| + |RawPicked(raws, files, ids, false)| == |raws|
  {
    hide Picked;
    if raws != [] {
      RawPickedSizes(raws[1..], files, ids);
    }
  }

  /** The id a file item is shown with. */
  function ShownId(raws: seq<Option<RawOp>>, i: nat): string
    requires i < |raws| && raws[i].Some?
  {
    IdOf(raws[i].value, "file-", i)
  }

  /** Rejecting by the id an item is shown with takes that item if and only if the id is its own operation id. */
  lemma {:induction false} ShownIdRejects(raws: seq<Option<RawOp>>, i: nat)
    requires (forall j :: 0 <= j < |raws| ==> raws[j].Some?) && i < |raws|
    ensures raws[i].value in RawPicked(raws, {}, {ShownId(raws, i)}, true) <==> raws[i].value.operationId != ""
  {
    hide RawPicked;
    RawPickedMember(raws, {}, {ShownId(raws, i)}, true, raws[i].value);
  }

  lemma OwnPlace(raws: seq<Option<RawOp>>, files: set<nat>, ids: set<string>, i: nat)
    requires (forall j :: 0 <= j < |raws| ==> raws[j].Some?) && i < |raws| && !Picked(raws[i].value, files, ids)
    ensures var place := i - |RawPicked(raws[..i], files, ids, true)|;
      0 <= place < |RawPicked(raws, files, ids, false)| && RawPicked(raws, files, ids, false)[place] == raws[i].value
  {
    hide RawPicked, Picked;
    assert raws == raws[..i] + raws[i..];
    RawPickedConcat(raws[..i], raws[i..], files, ids, false);
    RawPickedStep(raws, files, ids, false, i);
    RawPickedSizes(raws[..i], files, ids);
  }

  /** After a reject, an item that stays is shown with the same id if and only if the id is its own or no earlier item was
      taken. */
  lemma {:induction false} ShownIdStays(raws: seq<Option<RawOp>>, files: set<nat>, ids: set<string>, i: nat)
    requires (forall j :: 0 <= j < |raws| ==> raws[j].Some?) && i < |raws| && !Picked(raws[i].value, files, ids)
    ensures var left, place := Wrapped(RawPicked(raws, files, ids, false)), i - |RawPicked(raws[..i], files, ids, true)|;
      && 0 <= place < |left| && left[place] == raws[i]
      && (ShownId(left, place) == ShownId(raws, i) <==>
            (raws[i].value.operationId != "" || raws[i].value.id != "" || RawPicked(raws[..i], files, ids, true) == []))
  {
    hide RawPicked, Picked, Format;
    OwnPlace(raws, files, ids, i);
    var place := i - |RawPicked(raws[..i], files, ids, true)|;
    if "file-" + Format(place) == "file-" + Format(i) {
      assert ("file-" + Format(place))[5..] == Format(place) && ("file-" + Format(i))[5..] == Format(i);
      FormatInjective(place, i);
    }
  }
}
