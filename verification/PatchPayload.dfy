// Pending patches and their normal form (backend/services/agent/code_workspace.py, _safe_patch_filename and
// _normalize_patch_operations). A missing text field is the empty string, missing content is no lines.
module PatchPayload {
  import opened Decimal
  import opened EditScripts
  import opened Strings
  import opened Wrappers

  /** The file an operation names: none, a text that is no id, or an id. */
  datatype FileRef = NoFile | BadFile(text: string) | FileId(id: nat)

  datatype RawOp = RawOp(
    typ: string, operation: string, operationId: string, id: string,
    file: FileRef, filename: string, newFilename: string, content: Lines)

  /** List items that are not objects are None. */
  datatype Payload = Payload(operations: Option<seq<Option<RawOp>>>, files: seq<Option<RawOp>>)

  // ----- Safe file names -----

  const NAME_LIMIT := 500

  function BaseName(value: string): string {
    DropLeadingSlashes(ForwardSlashes(value))
  }

  predicate Climbs(f: string) {
    StartsWith(f, "../") || Contains("/" + f + "/", "/../")
  }

  function Truncated(f: string): string {
    if |f| <= NAME_LIMIT then f else f[..NAME_LIMIT]
  }

  function SafeFilename(value: string): Result<string, string> {
    var f := BaseName(value);
    if f == "" || Climbs(f) then Err("Unsafe patch filename") else Ok(Truncated(f))
  }

  lemma {:induction false} DroppedSuffix(s: string) returns (k: nat)
    ensures k <= |s| && DropLeadingSlashes(s) == s[k..]
    ensures DropLeadingSlashes(s) == "" || DropLeadingSlashes(s)[0] != '/'
  {
    if s != [] && s[0] == '/' {
      var j := DroppedSuffix(s[1..]);
      k := j + 1;
    } else {
      k := 0;
    }
  }

  lemma BaseNameFacts(value: string)
    ensures var f := BaseName(value);
      |f| <= |value| && (forall i :: 0 <= i < |f| ==> f[i] != '\\') && (f == "" || f[0] != '/')
  {
    var k := DroppedSuffix(ForwardSlashes(value));
  }

  lemma BaseNameFixed(f: string)
    requires (forall i :: 0 <= i < |f| ==> f[i] != '\\') && (f == "" || f[0] != '/')
    ensures BaseName(f) == f
  {
    assert ForwardSlashes(f) == f;
  }

  lemma ClimbAtEnd(f: string)
    requires EndsWith(f, "/..")
    ensures Climbs(f)
  {
    var s, i := "/" + f + "/", |f| - 2;
    assert s[i..] == f[|f| - 3..] + "/";
    assert s[i..][..4] == "/../";
  }

  lemma PrefixStart(b: string, n: nat)
    requires n <= |b| && StartsWith(b[..n], "../")
    ensures StartsWith(b, "../")
  {
    assert b[..3] == b[..n][..3];
  }

  lemma ContainsInside(b: string, n: nat, i: nat)
    requires n <= |b| && i + 3 <= n && ("/" + b[..n] + "/")[i..][..4] == "/../"
    ensures Contains("/" + b + "/", "/../")
  {
    var s, t := "/" + b[..n] + "/", "/" + b + "/";
    assert t[i..][..4] == s[i..][..4];
  }

  /** A longer prefix of a name that does not climb climbs only by ending in "/..". */
  lemma ClimbOfPrefix(b: string, n: nat)
    requires 2 < n <= |b| && !Climbs(b) && Climbs(b[..n])
    ensures EndsWith(b[..n], "/..")
  {
    hide StartsWith, Contains;
    var f := b[..n];
    if StartsWith(f, "../") {
      PrefixStart(b, n);
    } else {
      var i := ContainedAt("/" + f + "/", "/../");
      if i + 3 <= n {
        ContainsInside(b, n, i);
      } else {
        EndsThere(f, i);
      }
    }
  }

  lemma ContainedAt(s: string, part: string) returns (i: nat)
    requires Contains(s, part)
    ensures i <= |s| - |part| && s[i..][..|part|] == part
  {
    i :| 0 <= i <= |s| - |part| && s[i..][..|part|] == part;
  }

  lemma EndsThere(f: string, i: nat)
    requires 2 < |f| && i == |f| - 2 && ("/" + f + "/")[i..][..4] == "/../"
    ensures EndsWith(f, "/..")
  {
    var s := "/" + f + "/";
    assert s[i..][..3] == f[|f| - 3..];
    assert "/../"[..3] == "/..";
    assert s[i..][..4][..3] == s[i..][..3];
  }

  /** A safe name is accepted again unchanged exactly when it does not end in "/..", which only cutting can cause. */
  lemma {:induction false} SafeAgain(value: string)
    requires SafeFilename(value).Ok?
    ensures var f := SafeFilename(value).value;
      && (SafeFilename(f) == Ok(f) <==> !EndsWith(f, "/.."))
      && (|value| <= NAME_LIMIT ==> SafeFilename(f) == Ok(f))
  {
    hide Climbs, EndsWith;
    var b, f := BaseName(value), SafeFilename(value).value;
    BaseNameFacts(value);
    BaseNameFixed(f);
    if EndsWith(f, "/..") {
      ClimbAtEnd(f);
    }
    if |b| > NAME_LIMIT && Climbs(f) {
      ClimbOfPrefix(b, NAME_LIMIT);
    }
  }

  function Repeat(c: char, n: nat): (s: string)
    ensures |s| == n && forall i :: 0 <= i < n ==> s[i] == c
  {
    if n == 0 then "" else [c] + Repeat(c, n - 1)
  }

  /** A name cut just behind "/.." is handed out as safe, and refused the next time. */
  lemma {:induction false} CutNameIsRefusedLater() returns (value: string)
    ensures SafeFilename(value).Ok? && SafeFilename(SafeFilename(value).value).Err?
  {
    var prefix := Repeat('a', 497);
    value := prefix + "/..x";
    BaseNameFixed(value);
    assert value[0] == 'a';
    var s := "/" + value + "/";
    forall i | 0 <= i <= |s| - 4 ensures s[i..][..4] != "/../" {
      assert s[i..][..4][3] == s[i + 3];
      if s[i + 3] == '/' {
        assert i + 3 == 498 || i + 3 == 502;
        assert s[i..][..4][2] == s[i + 2];
      }
    }
    assert value[..3][0] == 'a';
    assert !Climbs(value);
    var f := value[..500];
    assert f[497..] == "/..";
    ClimbAtEnd(f);
    BaseNameFixed(f);
  }

  // ----- Operations -----

  datatype Kind = Create | Modify | Delete | Rename | Folder

  function KindName(k: Kind): string {
    match k
    case Create => "create"
    case Modify => "modify"
    case Delete => "delete"
    case Rename => "rename"
    case Folder => "folder"
  }

  function ParseKind(typ: string): Option<Kind> {
    var t := Strip(Lower(typ));
    if t == "create" then Some(Create)
    else if t == "modify" then Some(Modify)
    else if t == "delete" then Some(Delete)
    else if t == "rename" then Some(Rename)
    else if t in {"folder", "mkdir", "directory"} then Some(Folder)
    else None
  }

  predicate Plain(s: string) {
    s != "" && forall i :: 0 <= i < |s| ==> 'a' <= s[i] <= 'z'
  }

  lemma PlainFixed(s: string)
    requires Plain(s)
    ensures Strip(Lower(s)) == s
  {
    assert Lower(s) == s;
  }

  lemma PlainNames(k: Kind)
    ensures Plain(KindName(k))
  {
  }

  lemma NamesDiffer()
    ensures "create" != "modify" && "create" != "delete" && "create" != "rename" && "create" != "folder"
    ensures "modify" != "delete" && "modify" != "rename" && "modify" != "folder"
    ensures "delete" != "rename" && "delete" != "folder" && "rename" != "folder"
  {
    assert ["create"[0], "modify"[0], "delete"[0], "rename"[0], "folder"[0]] == ['c', 'm', 'd', 'r', 'f'];
  }

  /** The name of a kind is read back as that kind. */
  lemma {:induction false} KindRoundTrip(k: Kind)
    ensures ParseKind(KindName(k)) == Some(k)
  {
    hide Strip, Lower, Plain;
    PlainNames(k);
    PlainFixed(KindName(k));
    NamesDiffer();
  }

  function TypeText(raw: RawOp): string {
    if raw.typ != "" then raw.typ else if raw.operation != "" then raw.operation else "modify"
  }

  function IdOf(raw: RawOp, prefix: string, index: nat): (id: string)
    requires prefix != ""
    ensures id != ""
  {
    if raw.operationId != "" then raw.operationId else if raw.id != "" then raw.id else prefix + Format(index)
  }

  function NormalizeName(name: string): Result<string, string> {
    if name == "" then Ok("") else SafeFilename(name)
  }

  function NormalizeOp(raw: RawOp, index: nat): Result<RawOp, string> {
    var kind := ParseKind(TypeText(raw));
    var name, newName := NormalizeName(raw.filename), NormalizeName(raw.newFilename);
    if kind.None? then Err("Unsupported patch operation")
    else if name.Err? then Err(name.error)
    else if newName.Err? then Err(newName.error)
    else Ok(raw.(typ := KindName(kind.value), operationId := IdOf(raw, "op-", index),
                 filename := name.value, newFilename := newName.value))
  }

  /** An item of the older "files" list is always a modification. */
  function NormalizeFile(raw: RawOp, index: nat): Result<RawOp, string> {
    var name := NormalizeName(raw.filename);
    if name.Err? then Err(name.error)
    else Ok(raw.(typ := KindName(Modify), operationId := IdOf(raw, "file-", index), filename := name.value))
  }

  function NormalizeItem(raw: RawOp, isFile: bool, index: nat): Result<RawOp, string> {
    if isFile then NormalizeFile(raw, index) else NormalizeOp(raw, index)
  }

  /** The normalised items, or the error of the first bad one; `index` counts what is skipped, too. */
  function NormalizeItems(raws: seq<Option<RawOp>>, isFile: bool, index: nat): Result<seq<RawOp>, string>
    decreases |raws|
  {
    if raws == [] then Ok([])
    else if raws[0].None? then NormalizeItems(raws[1..], isFile, index + 1)
    else
      var first := NormalizeItem(raws[0].value, isFile, index);
      if first.Err? then Err(first.error)
      else
        var rest := NormalizeItems(raws[1..], isFile, index + 1);
        if rest.Err? then rest else Ok([first.value] + rest.value)
  }

  function Normalize(p: Payload): Result<seq<RawOp>, string> {
    var ops := if p.operations.Some? then NormalizeItems(p.operations.value, false, 0) else Ok([]);
    if ops.Err? then ops
    else
      var files := NormalizeItems(p.files, true, 0);
      if files.Err? then files else Ok(ops.value + files.value)
  }

  lemma NormalizeStep(raws: seq<Option<RawOp>>, isFile: bool, i: nat)
    requires i <= |raws|
    ensures var r := NormalizeItems(raws[i..], isFile, i);
      if i == |raws| then r == Ok([])
      else if raws[i].None? then r == NormalizeItems(raws[i + 1..], isFile, i + 1)
      else
        var first := NormalizeItem(raws[i].value, isFile, i);
        if first.Err? then r == Err(first.error)
        else
          var rest := NormalizeItems(raws[i + 1..], isFile, i + 1);
          if rest.Err? then r == rest else r == Ok([first.value] + rest.value)
  {
    if i < |raws| {
      assert raws[i..][1..] == raws[i + 1..];
    }
  }

  function Prepend(done: seq<RawOp>, r: Result<seq<RawOp>, string>): Result<seq<RawOp>, string> {
    if r.Err? then r else Ok(done + r.value)
  }

  method NormalizeList(raws: seq<Option<RawOp>>, isFile: bool) returns (r: Result<seq<RawOp>, string>)
    ensures r == NormalizeItems(raws, isFile, 0)
  {
    hide NormalizeItem, NormalizeItems;
    var ops := [];
    assert raws[0..] == raws;
    ghost var all := NormalizeItems(raws, isFile, 0);
    if all.Ok? {
      assert ops + all.value == all.value;
    }
    for i := 0 to |raws|
      invariant Prepend(ops, NormalizeItems(raws[i..], isFile, i)) == NormalizeItems(raws, isFile, 0)
    {
      NormalizeStep(raws, isFile, i);
      if raws[i].Some? {
        var op := NormalizeItem(raws[i].value, isFile, i);
        if op.Err? {
          return Err(op.error);
        }
        ghost var rest := NormalizeItems(raws[i + 1..], isFile, i + 1);
        if rest.Ok? {
          assert ops + ([op.value] + rest.value) == ops + [op.value] + rest.value;
        }
        ops := ops + [op.value];
      }
    }
    NormalizeStep(raws, isFile, |raws|);
    assert ops + [] == ops;
    r := Ok(ops);
  }

  method NormalizePatchOperations(p: Payload) returns (r: Result<seq<RawOp>, string>)
    ensures r == Normalize(p)
  {
    var ops := [];
    if p.operations.Some? {
      r := NormalizeList(p.operations.value, false);
      if r.Err? {
        return;
      }
      ops := r.value;
    }
    r := NormalizeList(p.files, true);
    if r.Ok? {
      r := Ok(ops + r.value);
    }
  }

  // ----- Normalising again -----

  function Wrapped(ops: seq<RawOp>): (raws: seq<Option<RawOp>>)
    ensures |raws| == |ops| && forall i :: 0 <= i < |ops| ==> raws[i] == Some(ops[i])
  {
    seq(|ops|, i requires 0 <= i < |ops| => Some(ops[i]))
  }

  predicate Normal(op: RawOp) {
    op.operationId != "" && op.typ in {"create", "modify", "delete", "rename", "folder"}
  }

  /** The name survives being normalised once more. */
  predicate Stable(name: string) {
    name == "" || SafeFilename(name) == Ok(name)
  }

  predicate Settled(op: RawOp) {
    Stable(op.filename) && Stable(op.newFilename)
  }

  predicate Short(raw: RawOp) {
    |raw.filename| <= NAME_LIMIT && |raw.newFilename| <= NAME_LIMIT
  }

  lemma NormalKind(op: RawOp)
    requires Normal(op)
    ensures ParseKind(op.typ).Some? && KindName(ParseKind(op.typ).value) == op.typ
  {
    hide ParseKind;
    if op.typ == "create" {
      KindRoundTrip(Create);
    } else if op.typ == "modify" {
      KindRoundTrip(Modify);
    } else if op.typ == "delete" {
      KindRoundTrip(Delete);
    } else if op.typ == "rename" {
      KindRoundTrip(Rename);
    } else {
      KindRoundTrip(Folder);
    }
  }

  lemma NormalizeOpAgain(op: RawOp, index: nat)
    requires Normal(op)
    ensures NormalizeOp(op, index) == Ok(op) <==> Settled(op)
  {
    hide SafeFilename, ParseKind, KindName;
    NormalKind(op);
  }

  /** A list of normalised operations is normalised to itself, with the same ids, exactly when its names are stable. */
  lemma {:induction false} NormalizeAgain(ops: seq<RawOp>, index: nat)
    requires forall op <- ops :: Normal(op)
    ensures NormalizeItems(Wrapped(ops), false, index) == Ok(ops) <==> forall op <- ops :: Settled(op)
    decreases |ops|
  {
    hide NormalizeOp, Normal, Settled;
    if ops != [] {
      assert ops[0] in ops;
      NormalizeOpAgain(ops[0], index);
      NormalizeAgain(ops[1..], index + 1);
      assert Wrapped(ops)[1..] == Wrapped(ops[1..]);
      assert ops == [ops[0]] + ops[1..];
    }
  }

  lemma NormalizedName(name: string)
    requires NormalizeName(name).Ok? && |name| <= NAME_LIMIT
    ensures Stable(NormalizeName(name).value)
  {
    hide SafeFilename;
    if name != "" {
      SafeAgain(name);
    }
  }

  lemma NormalizedItem(raw: RawOp, isFile: bool, index: nat)
    requires NormalizeItem(raw, isFile, index).Ok?
    ensures var op := NormalizeItem(raw, isFile, index).value;
      Normal(op) && (Short(raw) && (isFile ==> Stable(raw.newFilename)) ==> Settled(op))
  {
    hide SafeFilename, ParseKind, Stable, NormalizeName;
    if Short(raw) {
      if NormalizeName(raw.filename).Ok? {
        NormalizedName(raw.filename);
      }
      if NormalizeName(raw.newFilename).Ok? {
        NormalizedName(raw.newFilename);
      }
    }
  }

  ghost predicate AllShort(raws: seq<Option<RawOp>>, isFile: bool) {
    forall i :: 0 <= i < |raws| && raws[i].Some? ==>
      Short(raws[i].value) && (isFile ==> Stable(raws[i].value.newFilename))
  }

  lemma {:induction false} NormalizedItems(raws: seq<Option<RawOp>>, isFile: bool, index: nat)
    requires NormalizeItems(raws, isFile, index).Ok?
    ensures forall op <- NormalizeItems(raws, isFile, index).value :: Normal(op)
    ensures AllShort(raws, isFile) ==> forall op <- NormalizeItems(raws, isFile, index).value :: Settled(op)
    decreases |raws|
  {
    hide NormalizeItem, Normal, Settled, Short, Stable;
    if raws != [] {
      NormalizedItems(raws[1..], isFile, index + 1);
      if raws[0].Some? {
        NormalizedItem(raws[0].value, isFile, index);
      }
    }
  }

  lemma {:induction false} NormalizedPayload(p: Payload)
    requires Normalize(p).Ok?
    ensures forall op <- Normalize(p).value :: Normal(op)
    ensures (p.operations.Some? ==> AllShort(p.operations.value, false)) && AllShort(p.files, true) ==>
              forall op <- Normalize(p).value :: Settled(op)
  {
    hide NormalizeItems, Normal, Settled, Short, Stable;
    if p.operations.Some? {
      NormalizedItems(p.operations.value, false, 0);
    }
    NormalizedItems(p.files, true, 0);
  }

  /** Nothing selections and previews look at is changed by normalising once more. */
  predicate SameTargets(a: RawOp, b: RawOp) {
    a.operationId == b.operationId && a.file == b.file && a.typ == b.typ && a.content == b.content
  }

  lemma NormalizeKeepsTarget(op: RawOp, index: nat)
    requires Normal(op) && NormalizeOp(op, index).Ok?
    ensures SameTargets(op, NormalizeOp(op, index).value)
  {
    hide SafeFilename, ParseKind, KindName;
    NormalKind(op);
  }

  /** A normalised list that is still accepted keeps its operations in order, with the same ids, files and types. */
  lemma {:induction false} NormalizeKeepsTargets(ops: seq<RawOp>, index: nat)
    requires (forall op <- ops :: Normal(op)) && NormalizeItems(Wrapped(ops), false, index).Ok?
    ensures var ops' := NormalizeItems(Wrapped(ops), false, index).value;
      |ops'| == |ops| && forall i :: 0 <= i < |ops| ==> SameTargets(ops[i], ops'[i]) && Normal(ops'[i])
    decreases |ops|
  {
    hide NormalizeOp, Normal, SameTargets;
    if ops != [] {
      assert ops[0] in ops;
      assert Wrapped(ops)[1..] == Wrapped(ops[1..]);
      NormalizeKeepsTarget(ops[0], index);
      NormalizedItem(ops[0], false, index);
      NormalizeKeepsTargets(ops[1..], index + 1);
    }
  }
}
