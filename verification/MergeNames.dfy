// Naming the files copied by a project merge: _unique_merged_filename and the copy loop of merge_code_projects
// (backend/services/agent/code_workspace.py).
module MergeNames {
  import opened Decimal
  import opened Strings
  import opened Sublists

  // ----- The parts pathlib splits a relative path into -----

  /** The components between slashes, without empty ones and ".". */
  function Components(s: string, current: string): (cs: seq<string>)
    ensures forall c <- cs :: c != [] && c != "."
    decreases |s|
  {
    var done := if current == [] || current == "." then [] else [current];
    if s == [] then done
    else if s[0] == '/' then done + Components(s[1..], [])
    else Components(s[1..], current + [s[0]])
  }

  function JoinPath(cs: seq<string>): string {
    if cs == [] then "." else if |cs| == 1 then cs[0] else cs[0] + "/" + JoinPath(cs[1..])
  }

  /** The index of the last dot, or -1. */
  function LastDot(s: string): (i: int)
    ensures -1 <= i < |s|
  {
    if s == [] then -1 else if s[|s| - 1] == '.' then |s| - 1 else LastDot(s[..|s| - 1])
  }

  datatype PathParts = PathParts(parent: string, stem: string, suffix: string)

  function SplitPath(path: string): PathParts {
    var cs := Components(path, []);
    if cs == [] then PathParts(".", "file", "")
    else
      var name := cs[|cs| - 1];
      var dot := LastDot(name);
      var parent := JoinPath(cs[..|cs| - 1]);
      if 0 < dot < |name| - 1 then PathParts(parent, name[..dot], name[dot..]) else PathParts(parent, name, "")
  }

  // ----- Candidate names -----

  function Candidate(folder: string, filename: string): string {
    var clean := DropLeadingSlashes(ForwardSlashes(filename));
    if clean == [] then folder + "/untitled.txt" else folder + "/" + clean
  }

  /** `.copy`, `.copy2`, `.copy3`, ... between the stem and the suffix. */
  function CopyName(p: PathParts, index: nat): string
    requires index > 0
  {
    p.parent + "/" + p.stem + ".copy" + (if index > 1 then Format(index) else "") + p.suffix
  }

  lemma {:induction false} CopyNameInjective(p: PathParts, i: nat, j: nat)
    requires i > 0 && j > 0 && CopyName(p, i) == CopyName(p, j)
    ensures i == j
  {
    var a := if i > 1 then Format(i) else "";
    var b := if j > 1 then Format(j) else "";
    var front := p.parent + "/" + p.stem + ".copy";
    assert CopyName(p, i) == front + a + p.suffix && CopyName(p, j) == front + b + p.suffix;
    assert a == (front + a + p.suffix)[|front|..|front| + |a|];
    assert b == (front + b + p.suffix)[|front|..|front| + |b|];
    if i > 1 && j > 1 {
      FormatInjective(i, j);
    }
  }

  /** The first copy index whose name is free. */
  ghost predicate FirstFree(p: PathParts, used: set<string>, index: nat) {
    && index > 0
    && CopyName(p, index) !in used
    && forall k :: 1 <= k < index ==> CopyName(p, k) in used
  }

  /** Terminates within |used| + 1 tries; the result is the candidate itself when free, else the first free copy. */
  method UniqueMergedFilename(folder: string, filename: string, used: set<string>)
    returns (name: string, used': set<string>, ghost tries: nat)
    ensures name !in used && used' == used + {name}
    ensures Candidate(folder, filename) !in used ==> name == Candidate(folder, filename)
    ensures Candidate(folder, filename) in used ==>
      var p := SplitPath(Candidate(folder, filename));
      FirstFree(p, used, tries) && name == CopyName(p, tries)
    ensures tries <= |used| + 1
  {
    hide CopyName, SplitPath, Candidate;
    var candidate := Candidate(folder, filename);
    if candidate !in used {
      return candidate, used + {candidate}, 0;
    }
    var parts := SplitPath(candidate);
    var index := 1;
    ghost var tried: set<string> := {};
    while true
      invariant index > 0 && |tried| == index - 1 && tried <= used
      invariant forall n <- tried :: exists k :: 1 <= k < index && n == CopyName(parts, k)
      invariant forall k :: 1 <= k < index ==> CopyName(parts, k) in tried
      decreases |used| + 1 - index
    {
      SubsetSize(tried, used);
      var next := CopyName(parts, index);
      if next !in used {
        return next, used + {next}, index;
      }
      if next in tried {
        var k :| 1 <= k < index && next == CopyName(parts, k);
        CopyNameInjective(parts, k, index);
        assert false;
      }
      tried := tried + {next};
      SubsetSize(tried, used);
      index := index + 1;
    }
  }

  lemma SubsetSize(a: set<string>, b: set<string>)
    requires a <= b
    ensures |a| <= |b|
  {
    assert b == a + (b - a);
  }

  // ----- The copy loop -----

  predicate Distinct(names: seq<string>) {
    forall i, j :: 0 <= i < j < |names| ==> names[i] != names[j]
  }

  datatype SourceFile = SourceFile(filename: string, readable: bool)

  datatype SourceProject = SourceProject(folder: string, files: seq<SourceFile>)

  function Readable(files: seq<SourceFile>): seq<SourceFile> {
    Filter(files, (f: SourceFile) => f.readable)
  }

  function AllReadable(projects: seq<SourceProject>): seq<SourceFile> {
    if projects == [] then [] else Readable(projects[0].files) + AllReadable(projects[1..])
  }

  lemma AllReadableCons(first: SourceProject, rest: seq<SourceProject>)
    ensures AllReadable([first] + rest) == Readable(first.files) + AllReadable(rest)
  {
    hide Readable;
    assert ([first] + rest)[1..] == rest;
  }

  lemma {:induction false} AllReadableAppend(projects: seq<SourceProject>, last: SourceProject)
    ensures AllReadable(projects + [last]) == AllReadable(projects) + Readable(last.files)
  {
    hide Readable, AllReadable;
    if projects == [] {
      assert projects + [last] == [last] + [] && projects == [];
      AllReadableCons(last, []);
      NoneReadable();
      assert [] + Readable(last.files) == Readable(last.files) + [];
    } else {
      var first, rest := projects[0], projects[1..];
      assert projects == [first] + rest && projects + [last] == [first] + (rest + [last]);
      AllReadableCons(first, rest);
      AllReadableCons(first, rest + [last]);
      AllReadableAppend(rest, last);
      Associates(Readable(first.files), AllReadable(rest), Readable(last.files));
    }
  }

  lemma NoneReadable()
    ensures AllReadable([]) == []
  {
  }

  /** The names handed out so far are distinct and are exactly the used ones. */
  ghost predicate Tracks(used: set<string>, names: seq<string>) {
    Distinct(names) && forall n :: n in used <==> n in names
  }

  lemma TracksOneMore(used: set<string>, names: seq<string>, name: string)
    requires Tracks(used, names) && name !in used
    ensures Tracks(used + {name}, names + [name])
  {
  }

  function Names(names: seq<string>): set<string> {
    set n <- names
  }

  /** The name a file gets after these: its own inside the folder if that is free, else the first free copy of it. */
  ghost predicate Given(folder: string, filename: string, earlier: seq<string>, name: string) {
    var candidate := Candidate(folder, filename);
    if candidate !in earlier then name == candidate
    else exists index: nat :: FirstFree(SplitPath(candidate), Names(earlier), index) && name == CopyName(SplitPath(candidate), index)
  }

  lemma GivenByTracks(folder: string, filename: string, used: set<string>, earlier: seq<string>, name: string, tries: nat)
    requires Tracks(used, earlier)
    requires var candidate := Candidate(folder, filename);
      && (candidate !in used ==> name == candidate)
      && (candidate in used ==>
            FirstFree(SplitPath(candidate), used, tries) && name == CopyName(SplitPath(candidate), tries))
    ensures Given(folder, filename, earlier, name)
  {
    hide Candidate, SplitPath, FirstFree, CopyName;
    assert used == Names(earlier);
  }

  method CopyProject(project: SourceProject, used: set<string>, ghost names: seq<string>)
    returns (copied: seq<string>, sources: seq<SourceFile>, used': set<string>)
    requires Tracks(used, names)
    ensures Tracks(used', names + copied)
    ensures sources == Readable(project.files) && |copied| == |sources|
    ensures forall i :: 0 <= i < |copied| ==>
      Given(project.folder, sources[i].filename, names + copied[..i], copied[i])
  {
    hide Candidate, FirstFree, CopyName, SplitPath, Tracks, Given;
    var files := project.files;
    copied, sources, used' := [], [], used;
    assert names + copied == names;
    NothingToFilter(files, (file: SourceFile) => file.readable);
    for f := 0 to |files|
      invariant Tracks(used', names + copied)
      invariant sources == Readable(files[..f]) && |copied| == |sources|
      invariant forall i :: 0 <= i < |copied| ==>
        Given(project.folder, sources[i].filename, names + copied[..i], copied[i])
    {
      FilterStep(files, (file: SourceFile) => file.readable, f);
      if files[f].readable {
        var name, next, tries := UniqueMergedFilename(project.folder, files[f].filename, used');
        TracksOneMore(used', names + copied, name);
        GivenByTracks(project.folder, files[f].filename, used', names + copied, name, tries);
        assert forall i :: 0 <= i <= |copied| ==> (copied + [name])[..i] == copied[..i];
        assert copied[..|copied|] == copied;
        assert names + copied + [name] == names + (copied + [name]);
        copied, sources, used' := copied + [name], sources + [files[f]], next;
      }
    }
    assert files[..|files|] == files;
  }

  /** The folder of each file that is copied. */
  function Folders(projects: seq<SourceProject>): (folders: seq<string>)
    ensures |folders| == |AllReadable(projects)|
  {
    if projects == [] then []
    else seq(|Readable(projects[0].files)|, _ => projects[0].folder) + Folders(projects[1..])
  }

  lemma {:induction false} FoldersAppend(projects: seq<SourceProject>, last: SourceProject)
    ensures Folders(projects + [last]) == Folders(projects) + seq(|Readable(last.files)|, _ => last.folder)
  {
    hide Readable, AllReadable;
    if projects == [] {
      assert projects + [last] == [last];
      FoldersOfOne(last);
    } else {
      assert (projects + [last])[1..] == projects[1..] + [last];
      FoldersAppend(projects[1..], last);
      Associates(seq(|Readable(projects[0].files)|, _ => projects[0].folder), Folders(projects[1..]),
                 seq(|Readable(last.files)|, _ => last.folder));
    }
  }

  lemma FoldersOfOne(last: SourceProject)
    ensures Folders([last]) == seq(|Readable(last.files)|, _ => last.folder) && Folders([]) == []
  {
    hide Readable, AllReadable;
    assert [last][1..] == [];
  }

  /** Every copied file has the name it should have after the earlier ones. */
  ghost predicate AllGiven(folders: seq<string>, sources: seq<SourceFile>, names: seq<string>) {
    |folders| == |sources| == |names| &&
    forall i :: 0 <= i < |names| ==> Given(folders[i], sources[i].filename, names[..i], names[i])
  }

  lemma MoreGiven(folders: seq<string>, sources: seq<SourceFile>, names: seq<string>,
                  folder: string, more: seq<SourceFile>, copied: seq<string>)
    requires AllGiven(folders, sources, names) && |more| == |copied|
    requires forall i :: 0 <= i < |copied| ==> Given(folder, more[i].filename, names + copied[..i], copied[i])
    ensures AllGiven(folders + seq(|more|, _ => folder), sources + more, names + copied)
  {
    hide Given;
    var all := names + copied;
    forall i | 0 <= i < |all|
      ensures Given((folders + seq(|more|, _ => folder))[i], (sources + more)[i].filename, all[..i], all[i])
    {
      if i < |names| {
        assert all[..i] == names[..i];
      } else {
        assert all[..i] == names + copied[..i - |names|];
      }
    }
  }

  /** Copies every readable file of every source project under pairwise distinct names, whatever the folders are; each gets its
      own name inside its folder, or the first free copy of it. */
  method CopyProjects(projects: seq<SourceProject>) returns (names: seq<string>, sources: seq<SourceFile>)
    ensures Distinct(names)
    ensures sources == AllReadable(projects) && |names| == |sources|
    ensures AllGiven(Folders(projects), sources, names)
  {
    hide Given, Readable, AllReadable, Folders, AllGiven;
    names, sources := [], [];
    var used: set<string> := {};
    NothingGiven();
    for p := 0 to |projects|
      invariant Tracks(used, names)
      invariant sources == AllReadable(projects[..p]) && |names| == |sources|
      invariant AllGiven(Folders(projects[..p]), sources, names)
    {
      var copied, from, used' := CopyProject(projects[p], used, names);
      assert projects[..p + 1] == projects[..p] + [projects[p]];
      AllReadableAppend(projects[..p], projects[p]);
      FoldersAppend(projects[..p], projects[p]);
      MoreGiven(Folders(projects[..p]), sources, names, projects[p].folder, from, copied);
      names, sources, used := names + copied, sources + from, used';
    }
    assert projects[..|projects|] == projects;
  }

  lemma NothingGiven()
    ensures AllReadable([]) == [] && AllGiven(Folders([]), [], [])
  {
  }
}
