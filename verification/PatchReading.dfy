// How the items of a patch are read, one by one (backend/services/agent/code_workspace.py, _normalize_patch_operations).
module PatchReading {
  import opened Decimal
  import opened PatchPayload
  import opened Strings
  import opened Wrappers

  /** The type an operation names: its type, else its operation, else a modification; case and outer spaces do not count. */
  function Word(raw: RawOp): string {
    Strip(Lower(if raw.typ != "" then raw.typ else if raw.operation != "" then raw.operation else "modify"))
  }

  predicate MeansFolder(word: string) {
    word == "folder" || word == "mkdir" || word == "directory"
  }

  predicate Refused(name: string) {
    name != "" && SafeFilename(name).Err?
  }

  /** The item cannot be read. File items are not asked for their type, nor for a new name. */
  predicate Unusable(raw: RawOp, isFile: bool) {
    || Refused(raw.filename)
    || (!isFile && Refused(raw.newFilename))
    || (!isFile && !MeansFolder(Word(raw)) && Word(raw) !in {"create", "modify", "delete", "rename"})
  }

  predicate NameRead(name: string, read: string) {
    if name == "" then read == "" else SafeFilename(name) == Ok(read)
  }

  /** What the item at place `index` is read as. */
  predicate ReadAs(raw: RawOp, isFile: bool, index: nat, op: RawOp) {
    && op.typ == (if isFile then "modify" else if MeansFolder(Word(raw)) then "folder" else Word(raw))
    && op.operationId == (if raw.operationId != "" then raw.operationId
                          else if raw.id != "" then raw.id
                          else (if isFile then "file-" else "op-") + Format(index))
    && NameRead(raw.filename, op.filename)
    && (if isFile then op.newFilename == raw.newFilename else NameRead(raw.newFilename, op.newFilename))
    && op == raw.(typ := op.typ, operationId := op.operationId, filename := op.filename, newFilename := op.newFilename)
  }

  lemma WordsDiffer()
    ensures "create" != "modify" && "create" != "delete" && "create" != "rename" && "create" != "folder"
    ensures "create" != "mkdir" && "modify" != "mkdir" && "delete" != "mkdir" && "rename" != "mkdir"
    ensures "create" != "directory" && "modify" != "directory" && "delete" != "directory" && "rename" != "directory"
    ensures "modify" != "delete" && "modify" != "rename" && "modify" != "folder"
    ensures "delete" != "rename" && "delete" != "folder" && "rename" != "folder"
  {
    NamesDiffer();
    assert |"mkdir"| == 5 && |"directory"| == 9;
  }

  lemma OneRead(raw: RawOp, isFile: bool, index: nat)
    ensures NormalizeItem(raw, isFile, index).Ok? <==> !Unusable(raw, isFile)
    ensures NormalizeItem(raw, isFile, index).Ok? ==> ReadAs(raw, isFile, index, NormalizeItem(raw, isFile, index).value)
  {
    hide SafeFilename, Strip, Lower, Format;
    WordsDiffer();
  }

  /** The places of the items that are objects, counted from `index`. */
  function Places(raws: seq<Option<RawOp>>, index: nat): (ps: seq<nat>)
    ensures forall n :: 0 <= n < |ps| ==> index <= ps[n] < index + |raws| && raws[ps[n] - index].Some?
    decreases |raws|
  {
    if raws == [] then [] else (if raws[0].Some? then [index] else []) + Places(raws[1..], index + 1)
  }

  predicate AllUsable(raws: seq<Option<RawOp>>, isFile: bool) {
    forall i :: 0 <= i < |raws| && raws[i].Some? ==> !Unusable(raws[i].value, isFile)
  }

  /** Each object is read as its place says, in order. */
  predicate AllRead(raws: seq<Option<RawOp>>, isFile: bool, index: nat, ops: seq<RawOp>) {
    var places := Places(raws, index);
    && |ops| == |places|
    && forall n :: 0 <= n < |places| ==> ReadAs(raws[places[n] - index].value, isFile, places[n], ops[n])
  }

  lemma ReadMore(raws: seq<Option<RawOp>>, isFile: bool, index: nat, ops: seq<RawOp>)
    requires raws != [] && AllRead(raws[1..], isFile, index + 1, ops)
    ensures raws[0].None? ==> AllRead(raws, isFile, index, ops)
    ensures raws[0].Some? ==>
      forall op :: ReadAs(raws[0].value, isFile, index, op) ==> AllRead(raws, isFile, index, [op] + ops)
  {
    hide ReadAs;
    var rest := Places(raws[1..], index + 1);
    assert Places(raws, index) == if raws[0].Some? then [index] + rest else rest;
  }

  lemma {:induction false} ItemsRead(raws: seq<Option<RawOp>>, isFile: bool, index: nat)
    ensures NormalizeItems(raws, isFile, index).Ok? <==> AllUsable(raws, isFile)
    ensures NormalizeItems(raws, isFile, index).Ok? ==> AllRead(raws, isFile, index, NormalizeItems(raws, isFile, index).value)
    decreases |raws|
  {
    hide NormalizeItem, Unusable, ReadAs, AllRead;
    if raws == [] {
      NothingRead(isFile, index);
    } else {
      ItemsRead(raws[1..], isFile, index + 1);
      assert raws == [raws[0]] + raws[1..];
      if NormalizeItems(raws[1..], isFile, index + 1).Ok? {
        ReadMore(raws, isFile, index, NormalizeItems(raws[1..], isFile, index + 1).value);
      }
      if raws[0].Some? {
        OneRead(raws[0].value, isFile, index);
      }
    }
  }

  lemma NothingRead(isFile: bool, index: nat)
    ensures AllUsable([], isFile) && NormalizeItems([], isFile, index) == Ok([]) && AllRead([], isFile, index, [])
  {
  }

  function Listed(p: Payload): seq<Option<RawOp>> {
    if p.operations.Some? then p.operations.value else []
  }

  /**
   * A patch is read if and only if each of its objects can be. Then its operations come first and its file items after them,
   * each read as its place says, with nothing else about it changed; what is no object is skipped, but counted.
   */
  lemma {:induction false} PayloadRead(p: Payload)
    ensures Normalize(p).Ok? <==> AllUsable(Listed(p), false) && AllUsable(p.files, true)
    ensures Normalize(p).Ok? ==>
      exists first, second :: Normalize(p).value == first + second &&
        AllRead(Listed(p), false, 0, first) && AllRead(p.files, true, 0, second)
  {
    hide NormalizeItems, AllUsable, AllRead;
    ItemsRead(Listed(p), false, 0);
    ItemsRead(p.files, true, 0);
    NothingRead(false, 0);
  }
}
