// Order-preserving selections of a list.
module Sublists {

  function Filter<T>(s: seq<T>, p: T -> bool): (r: seq<T>)
    ensures |r| <= |s|
  {
    if s == [] then [] else (if p(s[0]) then [s[0]] else []) + Filter(s[1..], p)
  }

  /** `whole` is `a` and `b` merged, both in their own order. */
  ghost predicate Interleaving<T>(whole: seq<T>, a: seq<T>, b: seq<T>)
    decreases |whole|
  {
    if whole == [] then a == [] && b == []
    else
      || (a != [] && a[0] == whole[0] && Interleaving(whole[1..], a[1..], b))
      || (b != [] && b[0] == whole[0] && Interleaving(whole[1..], a, b[1..]))
  }

  lemma {:induction false} FilterMember<T>(s: seq<T>, p: T -> bool, x: T)
    ensures x in Filter(s, p) <==> x in s && p(x)
  {
    if s != [] {
      FilterMember(s[1..], p, x);
      assert s == [s[0]] + s[1..];
    }
  }

  /** Two filters select the same list exactly when they agree on its elements. */
  lemma {:induction false} SameFilter<T>(s: seq<T>, p: T -> bool, q: T -> bool)
    ensures Filter(s, p) == Filter(s, q) <==> forall x <- s :: p(x) <==> q(x)
  {
    if Filter(s, p) == Filter(s, q) {
      forall x | x in s ensures p(x) <==> q(x) {
        FilterMember(s, p, x);
        FilterMember(s, q, x);
      }
    }
    if forall x <- s :: p(x) <==> q(x) {
      AgreeingFilters(s, p, q);
    }
  }

  lemma {:induction false} AgreeingFilters<T>(s: seq<T>, p: T -> bool, q: T -> bool)
    requires forall x <- s :: p(x) <==> q(x)
    ensures Filter(s, p) == Filter(s, q)
  {
    if s != [] {
      assert s[0] in s;
      AgreeingFilters(s[1..], p, q);
    }
  }

  /** Opposite filters share a list out. */
  lemma {:induction false} FiltersInterleave<T>(s: seq<T>, p: T -> bool, q: T -> bool)
    requires forall x <- s :: p(x) <==> !q(x)
    ensures Interleaving(s, Filter(s, p), Filter(s, q))
  {
    if s != [] {
      assert s[0] in s;
      FiltersInterleave(s[1..], p, q);
      if p(s[0]) {
        assert Filter(s, p)[1..] == Filter(s[1..], p);
        assert Filter(s, q) == Filter(s[1..], q);
      } else {
        assert Filter(s, q)[1..] == Filter(s[1..], q);
        assert Filter(s, p) == Filter(s[1..], p);
      }
    }
  }

  lemma {:induction false} InterleavingKeepsAll<T>(whole: seq<T>, a: seq<T>, b: seq<T>)
    requires Interleaving(whole, a, b)
    ensures multiset(whole) == multiset(a) + multiset(b)
    decreases |whole|
  {
    if whole != [] {
      assert whole == [whole[0]] + whole[1..];
      if a != [] && a[0] == whole[0] && Interleaving(whole[1..], a[1..], b) {
        InterleavingKeepsAll(whole[1..], a[1..], b);
        assert a == [a[0]] + a[1..];
      } else {
        InterleavingKeepsAll(whole[1..], a, b[1..]);
        assert b == [b[0]] + b[1..];
      }
    }
  }

  lemma FilterStep<T>(s: seq<T>, p: T -> bool, i: nat)
    requires i < |s|
    ensures Filter(s[..i + 1], p) == Filter(s[..i], p) + if p(s[i]) then [s[i]] else []
  {
    assert s[..i + 1] == s[..i] + [s[i]];
    FilterAppend(s[..i], [s[i]], p);
  }

  lemma {:induction false} FilterAppend<T>(a: seq<T>, b: seq<T>, p: T -> bool)
    ensures Filter(a + b, p) == Filter(a, p) + Filter(b, p)
  {
    if a == [] {
      assert a + b == b;
    } else {
      assert (a + b)[1..] == a[1..] + b;
      FilterAppend(a[1..], b, p);
      var first := if p(a[0]) then [a[0]] else [];
      assert first + (Filter(a[1..], p) + Filter(b, p)) == first + Filter(a[1..], p) + Filter(b, p);
    }
  }

  lemma NothingToFilter<T>(s: seq<T>, p: T -> bool)
    ensures Filter(s[..0], p) == []
  {
  }

  lemma {:induction false} FilterTwice<T>(s: seq<T>, p: T -> bool, q: T -> bool)
    requires forall x <- s :: q(x) ==> p(x)
    ensures Filter(Filter(s, p), q) == Filter(s, q)
  {
    if s != [] {
      assert s[0] in s;
      FilterTwice(s[1..], p, q);
      FilterAppend(if p(s[0]) then [s[0]] else [], Filter(s[1..], p), q);
    }
  }

  lemma {:induction false} FilterAll<T>(s: seq<T>, p: T -> bool)
    requires forall x <- s :: p(x)
    ensures Filter(s, p) == s
  {
    if s != [] {
      assert s[0] in s;
      FilterAll(s[1..], p);
      assert s == [s[0]] + s[1..];
    }
  }

  lemma Associates<T>(a: seq<T>, b: seq<T>, c: seq<T>)
    ensures a + (b + c) == a + b + c
  {
  }

  /** `at` lists the places in `s` of the elements of `part`, in order. */
  ghost predicate Places<T>(s: seq<T>, part: seq<T>, at: seq<nat>) {
    && |at| == |part|
    && (forall k :: 0 <= k < |at| ==> at[k] < |s| && part[k] == s[at[k]])
    && forall j, k :: 0 <= j < k < |at| ==> at[j] < at[k]
  }

  function Moved(at: seq<nat>): (r: seq<nat>)
    ensures |r| == |at| && forall k :: 0 <= k < |at| ==> r[k] == at[k] + 1
  {
    seq(|at|, k requires 0 <= k < |at| => at[k] + 1)
  }

  lemma PlacesMove<T>(s: seq<T>, part: seq<T>, at: seq<nat>)
    requires s != [] && Places(s[1..], part, at)
    ensures Places(s, part, Moved(at))
  {
  }

  lemma PlacesTake<T>(s: seq<T>, part: seq<T>, at: seq<nat>)
    requires s != [] && Places(s[1..], part, at)
    ensures Places(s, [s[0]] + part, [0] + Moved(at))
  {
    PlacesMove(s, part, at);
  }

  /** All the places that `p` picks. */
  ghost predicate AllPlaces<T>(s: seq<T>, p: T -> bool, at: seq<nat>) {
    && (forall j <- at :: j < |s| && p(s[j]))
    && forall j: nat :: j < |s| && p(s[j]) ==> j in at
  }

  lemma MovedMember(at: seq<nat>, j: nat)
    ensures j in Moved(at) <==> j > 0 && j - 1 in at
  {
    if j > 0 && j - 1 in at {
      var k :| 0 <= k < |at| && at[k] == j - 1;
      assert Moved(at)[k] == j;
    }
  }

  lemma AllPlacesCons<T>(s: seq<T>, p: T -> bool, at: seq<nat>)
    requires s != [] && AllPlaces(s[1..], p, at)
    ensures AllPlaces(s, p, (if p(s[0]) then [0] else []) + Moved(at))
  {
    forall j: nat {
      MovedMember(at, j);
    }
    forall j: nat | j < |s| && p(s[j]) ensures j in (if p(s[0]) then [0] else []) + Moved(at) {
      if j > 0 {
        assert s[j] == s[1..][j - 1];
      }
    }
  }

  /** A filtered list has places in the list, and no place is missed. */
  lemma {:induction false} FilterPlaces<T>(s: seq<T>, p: T -> bool) returns (at: seq<nat>)
    ensures Places(s, Filter(s, p), at) && AllPlaces(s, p, at)
  {
    hide Places, AllPlaces;
    if s == [] {
      at := [];
      NoPlaces(s, p);
    } else {
      var rest := FilterPlaces(s[1..], p);
      PlacesMove(s, Filter(s[1..], p), rest);
      PlacesTake(s, Filter(s[1..], p), rest);
      AllPlacesCons(s, p, rest);
      if p(s[0]) {
        at := [0] + Moved(rest);
      } else {
        at := Moved(rest);
        assert [] + Filter(s[1..], p) == Filter(s[1..], p) && [] + Moved(rest) == Moved(rest);
      }
    }
  }

  lemma NoPlaces<T>(s: seq<T>, p: T -> bool)
    ensures Places(s, [], []) && (s == [] ==> AllPlaces(s, p, []))
  {
  }
}
