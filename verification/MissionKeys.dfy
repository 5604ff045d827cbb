// How long an idempotency key protects a persisted mission from being created twice: the key is looked for among the
// newest 250 missions only (backend/services/agent/cognitive_execution.py, create_persisted_mission).
module MissionKeys {
  import opened Missions
  import opened Wrappers

  datatype Request = Request(mission: nat, key: string, requestHash: string)

  /** The missions after one create. */
  function NextCreated(created: seq<Created>, q: Request): seq<Created> {
    if q.key != "" && FindRecent(created, q.key, RECENT).Some? then created
    else created + [Created(q.mission, q.key, q.requestHash)]
  }

  function AfterRequests(created: seq<Created>, requests: seq<Request>): seq<Created>
    decreases |requests|
  {
    if requests == [] then created else AfterRequests(NextCreated(created, requests[0]), requests[1..])
  }

  /** The place of the newest mission with the key, if there is one. */
  ghost predicate NewestWith(created: seq<Created>, key: string, i: nat) {
    i < |created| && created[i].key == key && forall j :: i < j < |created| ==> created[j].key != key
  }

  /** A used key is found again exactly while fewer than 250 missions have been created since. */
  lemma {:induction false} KeyIsFoundIff(created: seq<Created>, key: string, i: nat, budget: nat)
    requires NewestWith(created, key, i)
    ensures FindRecent(created, key, budget) == if |created| - i <= budget then Some(created[i]) else None
    decreases budget
  {
    if budget > 0 && i < |created| - 1 {
      KeyIsFoundIff(created[..|created| - 1], key, i, budget - 1);
    }
  }

  lemma {:induction false} UnusedKey(created: seq<Created>, key: string, budget: nat)
    requires forall c <- created :: c.key != key
    ensures FindRecent(created, key, budget) == None
    decreases budget
  {
    if budget > 0 && created != [] {
      UnusedKey(created[..|created| - 1], key, budget - 1);
    }
  }

  lemma {:induction false} NewestOf(created: seq<Created>, key: string) returns (i: nat)
    requires exists c <- created :: c.key == key
    ensures NewestWith(created, key, i)
  {
    var n := |created| - 1;
    if created[n].key == key {
      i := n;
    } else {
      assert created == created[..n] + [created[n]];
      i := NewestOf(created[..n], key);
    }
  }

  // ----- Runs of creates -----

  /** Missions that share a key are more than 250 apart. */
  ghost predicate Spaced(created: seq<Created>) {
    forall i, j :: 0 <= i < j < |created| && created[i].key == created[j].key != "" ==> j - i > 250
  }

  lemma NextSpaced(created: seq<Created>, q: Request)
    requires Spaced(created)
    ensures Spaced(NextCreated(created, q))
  {
    hide FindRecent;
    var next := NextCreated(created, q);
    if next != created && q.key != "" {
      forall i | 0 <= i < |created| && created[i].key == q.key ensures |created| - i > 250 {
        var newest := NewestOf(created, q.key);
        KeyIsFoundIff(created, q.key, newest, RECENT);
      }
    }
  }

  /** Whatever is created in whatever order, missions with the same key are more than 250 apart. */
  lemma {:induction false} RunSpacesKeys(created: seq<Created>, requests: seq<Request>)
    requires Spaced(created)
    ensures Spaced(AfterRequests(created, requests))
    decreases |requests|
  {
    hide Spaced, NextCreated;
    if requests != [] {
      NextSpaced(created, requests[0]);
      RunSpacesKeys(NextCreated(created, requests[0]), requests[1..]);
    }
  }

  ghost predicate OnePerKey(created: seq<Created>) {
    forall i, j :: 0 <= i < j < |created| && created[i].key == created[j].key ==> created[i].key == ""
  }

  /** The key is used, and 250 or more missions have been created since it was used last. */
  ghost predicate Outlived(created: seq<Created>, key: string) {
    key != "" && exists i :: NewestWith(created, key, i) && |created| - i > 250
  }

  /** Some request comes with an outlived key. */
  ghost predicate UsesOutlived(created: seq<Created>, requests: seq<Request>)
    decreases |requests|
  {
    requests != [] && (Outlived(created, requests[0].key) || UsesOutlived(NextCreated(created, requests[0]), requests[1..]))
  }

  lemma NextOnePerKey(created: seq<Created>, q: Request)
    requires OnePerKey(created)
    ensures OnePerKey(NextCreated(created, q)) <==> !Outlived(created, q.key)
  {
    hide FindRecent;
    var next := NextCreated(created, q);
    if exists c <- created :: c.key == q.key {
      var newest := NewestOf(created, q.key);
      KeyIsFoundIff(created, q.key, newest, RECENT);
      if q.key != "" && |created| - newest > RECENT {
        assert next[newest].key == next[|created|].key;
      }
    } else {
      UnusedKey(created, q.key, RECENT);
    }
  }

  lemma {:induction false} TwiceStays(created: seq<Created>, requests: seq<Request>)
    requires !OnePerKey(created)
    ensures !OnePerKey(AfterRequests(created, requests))
    decreases |requests|
  {
    hide FindRecent;
    if requests != [] {
      var next := NextCreated(created, requests[0]);
      var i, j :| 0 <= i < j < |created| && created[i].key == created[j].key && created[i].key != "";
      assert next[i] == created[i] && next[j] == created[j];
      TwiceStays(next, requests[1..]);
    }
  }

  /** A run of creates makes at most one mission per key if and only if no request comes with an outlived key. */
  lemma {:induction false} OnePerKeyIff(created: seq<Created>, requests: seq<Request>)
    requires OnePerKey(created)
    ensures OnePerKey(AfterRequests(created, requests)) <==> !UsesOutlived(created, requests)
    decreases |requests|
  {
    hide NextCreated, OnePerKey, Outlived;
    if requests != [] {
      NextOnePerKey(created, requests[0]);
      if Outlived(created, requests[0].key) {
        TwiceStays(NextCreated(created, requests[0]), requests[1..]);
      } else {
        OnePerKeyIff(NextCreated(created, requests[0]), requests[1..]);
      }
    }
  }

  // ----- A repeated request -----

  function Unkeyed(n: nat): seq<Request> {
    if n == 0 then [] else [Request(0, "", "")] + Unkeyed(n - 1)
  }

  lemma {:induction false} AfterUnkeyed(created: seq<Created>, n: nat, last: Request) returns (more: seq<Created>)
    ensures |more| == n && forall i :: 0 <= i < n ==> more[i].key == ""
    ensures AfterRequests(created, Unkeyed(n) + [last]) == NextCreated(created + more, last)
    decreases n
  {
    hide NextCreated;
    var requests := Unkeyed(n) + [last];
    if n == 0 {
      more := [];
      assert requests == [last] && requests[1..] == [] && created + more == created;
      NoRequests(NextCreated(created, last));
    } else {
      var first := [Created(0, "", "")];
      assert requests[0] == Request(0, "", "") && requests[1..] == Unkeyed(n - 1) + [last];
      UnkeyedAdds(created);
      var rest := AfterUnkeyed(created + first, n - 1, last);
      more := first + rest;
      assert created + first + rest == created + more;
    }
  }

  lemma NoRequests(created: seq<Created>)
    ensures AfterRequests(created, []) == created
  {
  }

  lemma UnkeyedAdds(created: seq<Created>)
    ensures NextCreated(created, Request(0, "", "")) == created + [Created(0, "", "")]
  {
  }

  /** A request repeated after `n` other missions makes a second mission if and only if `n` is at least 250. */
  lemma {:induction false} RepeatedRequestIff(q: Request, n: nat)
    requires q.key != ""
    ensures |AfterRequests([], [q] + Unkeyed(n) + [q])| == n + if n >= 250 then 2 else 1
  {
    hide FindRecent;
    var requests := [q] + Unkeyed(n) + [q];
    assert requests[0] == q && requests[1..] == Unkeyed(n) + [q];
    UnusedKey([], q.key, RECENT);
    var first := [Created(q.mission, q.key, q.requestHash)];
    assert NextCreated([], q) == first;
    var more := AfterUnkeyed(first, n, q);
    var created := first + more;
    assert NewestWith(created, q.key, 0);
    KeyIsFoundIff(created, q.key, 0, RECENT);
  }
}
