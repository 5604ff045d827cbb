// Which offered assignments a poll starts, told by the slots there are afterwards (desktop/runtime/worker-coordinator.js,
// hasCapacity and pollAssignments).
module PollRoom {
  import opened Coordinator

  function ClassName(a: Assignment): string {
    if a.executionClass == "" then "read_only" else a.executionClass
  }

  predicate Works(slot: Slot) {
    slot.status == Accepting || slot.status == Running
  }

  /** The working slots of one class, or of all. */
  function Working(slots: seq<Slot>, all: bool, name: string): set<nat> {
    set i: nat | i < |slots| && Works(slots[i]) && (all || slots[i].executionClass == name)
  }

  lemma LastSlot(slots: seq<Slot>, all: bool, name: string)
    requires slots != []
    ensures var n := |slots| - 1;
      |Working(slots, all, name)| ==
        |Working(slots[..n], all, name)| + if Works(slots[n]) && (all || slots[n].executionClass == name) then 1 else 0
  {
    var n := |slots| - 1;
    var front := Working(slots[..n], all, name);
    var counts := Works(slots[n]) && (all || slots[n].executionClass == name);
    assert n !in front;
    assert Working(slots, all, name) == if counts then front + {n} else front;
  }

  lemma {:induction false} CountedSlots(slots: seq<Slot>, name: string)
    ensures |Working(slots, true, name)| == |ActiveSlots(slots)| && |Working(slots, false, name)| == ClassCount(slots, name)
  {
    if slots != [] {
      CountedSlots(slots[..|slots| - 1], name);
      LastSlot(slots, true, name);
      LastSlot(slots, false, name);
      hide Working;
    }
  }

  /** Some working slot has this assignment or this task. */
  predicate Taken(slots: seq<Slot>, a: Assignment) {
    exists i :: 0 <= i < |slots| && Works(slots[i]) && (slots[i].assignment == a.id || slots[i].task == a.task)
  }

  /** There is no room: as many slots work as are allowed, in all or in the class; a class without a limit may use them all. */
  predicate Full(limits: Limits, slots: seq<Slot>, a: Assignment) {
    || |Working(slots, true, "")| >= limits.total
    || |Working(slots, false, ClassName(a))| >=
         if ClassName(a) in limits.classes then limits.classes[ClassName(a)] else limits.total
  }

  lemma RoomIff(limits: Limits, slots: seq<Slot>, a: Assignment)
    ensures HasCapacity(limits, slots, a) <==> !Taken(slots, a) && !Full(limits, slots, a)
  {
    hide ActiveSlots, ClassCount, Working;
    CountedSlots(slots, ClassName(a));
    CountedSlots(slots, "");
    assert forall i :: 0 <= i < |slots| ==> (IsActive(slots[i]) <==> Works(slots[i]));
  }

  /** After a poll each offered assignment is worked on, or the worker or its class is full. */
  lemma {:induction false} PollTakesAll(limits: Limits, slots: seq<Slot>, available: seq<Assignment>, i: nat)
    requires i < |available|
    ensures var slots' := PollFrom(limits, slots, available);
      Taken(slots', available[i]) || Full(limits, slots', available[i])
  {
    hide HasCapacity, Taken, Full;
    PollIsMaximal(limits, slots, available, i);
    RoomIff(limits, PollFrom(limits, slots, available), available[i]);
  }

  /** The slots there were stay as they are. Each new one has an offered assignment, its task and its class, nobody worked on
      either before, and there was room for it. */
  lemma {:induction false} PollTakesOnly(limits: Limits, slots: seq<Slot>, available: seq<Assignment>, n: nat) returns (k: nat)
    requires |slots| <= n < |PollFrom(limits, slots, available)|
    ensures k < |available|
    ensures var slots', a := PollFrom(limits, slots, available), available[k];
      && slots <= slots'
      && slots'[n] == Slot(a.id, a.task, ClassName(a), Accepting, Write(Requested), false)
      && !Taken(slots'[..n], a) && !Full(limits, slots'[..n], a)
    decreases |available|
  {
    hide HasCapacity, Taken, Full;
    PollAppends(limits, slots, available);
    var slots' := PollFrom(limits, slots, available);
    var a := available[0];
    if HasCapacity(limits, slots, a) {
      PollAppends(limits, slots + [StartedSlot(a)], available[1..]);
      if n == |slots| {
        k := 0;
        assert slots'[n] == slots'[..n + 1][n] == StartedSlot(a);
        assert slots'[..n] == slots;
        RoomIff(limits, slots, a);
      } else {
        var j := PollTakesOnly(limits, slots + [StartedSlot(a)], available[1..], n);
        k := j + 1;
      }
    } else {
      var j := PollTakesOnly(limits, slots, available[1..], n);
      k := j + 1;
    }
  }

  /** A limit given for a class counts; otherwise the default one, or all slots for a class that has none. */
  lemma {:induction false} LimitsAsGiven(maxWorkers: nat, overrides: map<string, nat>, name: string)
    ensures var limits := LimitsFor(maxWorkers, overrides);
      && limits.total == maxWorkers
      && ClassLimit(limits, name) ==
           if name in overrides then overrides[name]
           else if name == "read_only" then 2
           else if name == "write_sensitive" || name == "verification" || name == "integration" || name == "review" then 1
           else maxWorkers
  {
    assert "read_only"[0] == 'r' && "read_only"[2] == 'a' && "review"[2] == 'v' && "write_sensitive"[0] == 'w';
    assert "verification"[0] == 'v' && "integration"[0] == 'i';
  }
}
