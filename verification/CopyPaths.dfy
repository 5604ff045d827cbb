// How the names of merged files are taken apart and put together (backend/services/agent/code_workspace.py,
// _unique_merged_filename; paths as pathlib reads them).
module CopyPaths {
  import opened MergeNames
  import opened SafeNames
  import opened Strings

  /** A merged file keeps its name inside the folder of its project: slashes turned forward, leading ones dropped, and a stock
      name when nothing is left. */
  lemma {:induction false} CandidateIs(folder: string, filename: string) returns (k: nat)
    ensures k <= |filename| && (forall i :: 0 <= i < k ==> IsSlash(filename[i])) && (k < |filename| ==> !IsSlash(filename[k]))
    ensures k == |filename| ==> Candidate(folder, filename) == folder + "/untitled.txt"
    ensures k < |filename| ==>
      var name := Candidate(folder, filename);
      && |name| == |folder| + 1 + |filename| - k && name[..|folder|] == folder && name[|folder|] == '/'
      && forall i :: k <= i < |filename| ==>
           name[|folder| + 1 + i - k] == if IsSlash(filename[i]) then '/' else filename[i]
  {
    hide DropLeadingSlashes, ForwardSlashes;
    var forward := ForwardSlashes(filename);
    k := LeadingSlashes(forward);
    assert forall i :: k <= i < |filename| ==> forward[k..][i - k] == forward[i];
  }

  // ----- Components -----

  predicate Clean(c: string) {
    c != "" && c != "." && forall i :: 0 <= i < |c| ==> c[i] != '/'
  }

  lemma {:induction false} ReadComponent(c: string, rest: string, current: string)
    requires forall i :: 0 <= i < |c| ==> c[i] != '/'
    ensures Components(c + rest, current) == Components(rest, current + c)
    decreases |c|
  {
    if c == "" {
      assert c + rest == rest && current + c == current;
    } else {
      assert (c + rest)[1..] == c[1..] + rest;
      ReadComponent(c[1..], rest, current + [c[0]]);
      assert current + [c[0]] + c[1..] == current + c;
    }
  }

  /** A path put together from clean components is read as just these. */
  lemma {:induction false} PathRoundTrip(cs: seq<string>)
    requires forall c <- cs :: Clean(c)
    ensures Components(JoinPath(cs), "") == cs
    decreases |cs|
  {
    if cs == [] {
      assert Components(".", "") == Components("", ".");
    } else {
      assert cs[0] in cs;
      var rest := if |cs| == 1 then "" else "/" + JoinPath(cs[1..]);
      assert JoinPath(cs) == cs[0] + rest;
      ReadComponent(cs[0], rest, "");
      assert "" + cs[0] == cs[0];
      if |cs| > 1 {
        assert rest[1..] == JoinPath(cs[1..]);
        PathRoundTrip(cs[1..]);
        assert cs == [cs[0]] + cs[1..];
      } else {
        assert cs == [cs[0]];
      }
    }
  }

  lemma {:induction false} ComponentsClean(s: string, current: string)
    requires forall i :: 0 <= i < |current| ==> current[i] != '/'
    ensures forall c <- Components(s, current) :: Clean(c)
    decreases |s|
  {
    if s != [] {
      if s[0] == '/' {
        ComponentsClean(s[1..], "");
      } else {
        ComponentsClean(s[1..], current + [s[0]]);
      }
    }
  }

  lemma {:induction false} LastDotIs(s: string)
    ensures LastDot(s) >= 0 ==> s[LastDot(s)] == '.'
    ensures forall i :: LastDot(s) < i < |s| ==> s[i] != '.'
  {
    if s != [] && s[|s| - 1] != '.' {
      LastDotIs(s[..|s| - 1]);
    }
  }

  /** The last dot of a name, when it stands neither first nor last, begins the suffix; otherwise there is none. */
  predicate Parts(name: string, stem: string, suffix: string) {
    && name == stem + suffix && stem != ""
    && (suffix != "" ==> |suffix| > 1 && suffix[0] == '.' && forall i :: 0 < i < |suffix| ==> suffix[i] != '.')
    && (suffix == "" ==> forall i :: 0 < i < |name| - 1 && name[i] == '.' ==>
          name[|name| - 1] == '.')
  }

  /** A path with at least one component is taken apart into the path of all but the last, and stem and suffix of the last; put
      together again they give the same components. */
  lemma {:induction false} SplitPathIs(path: string)
    requires Components(path, "") != []
    ensures var p, cs := SplitPath(path), Components(path, "");
      && Parts(cs[|cs| - 1], p.stem, p.suffix)
      && Components(p.parent, "") == cs[..|cs| - 1]
      && Components(p.parent + "/" + p.stem + p.suffix, "") == cs
  {
    var p, cs := SplitPath(path), Components(path, "");
    var name, front := cs[|cs| - 1], cs[..|cs| - 1];
    ComponentsClean(path, "");
    LastDotIs(name);
    PathRoundTrip(front);
    hide LastDot;
    assert Clean(name);
    assert p.stem + p.suffix == name;
    Behind(p.parent, name);
    assert p.parent + "/" + p.stem + p.suffix == p.parent + ("/" + name);
    assert cs == front + [name];
  }

  /** A name behind a path is one more component. */
  lemma {:induction false} Behind(path: string, name: string)
    requires Clean(name)
    ensures Components(path + ("/" + name), "") == Components(path, "") + [name]
  {
    OneBehind(path, "", name);
  }

  lemma {:induction false} OneBehind(path: string, current: string, name: string)
    requires Clean(name)
    ensures Components(path + ("/" + name), current) == Components(path, current) + [name]
    decreases |path|
  {
    var all := path + ("/" + name);
    if path == "" {
      assert all == "/" + name && all[1..] == name;
      ReadComponent(name, "", "");
      assert name + "" == name && "" + name == name;
      assert Components(name, "") == [name];
    } else {
      assert all[0] == path[0] && all[1..] == path[1..] + ("/" + name);
      OneBehind(path[1..], if path[0] == '/' then "" else current + [path[0]], name);
    }
  }
}
