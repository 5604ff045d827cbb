// What the recovery of unfinished executions leaves in the journal, entry by entry (desktop/runtime/worker-coordinator.js
// and recovery/repository-reconciler.js).
module RecoveryNotes {
  import opened Coordinator
  import opened Wrappers

  /** The repository is not as the entry left it. */
  predicate Disturbed(repository: RepositoryState) {
    repository in {PartiallyModified, Conflicted, ExternallyModified, Missing}
  }

  /** Each decision has its case: a disturbed repository is left to a human; of the others an expired execution is abandoned,
      and an expired one that was rolled back to unchanged files is recovered; all else is reconciled. */
  lemma {:induction false} DecisionIff(stage: Stage, expired: bool, repository: RepositoryState)
    ensures var d := RecoveryDecision(stage, expired, repository);
      && (d == ManualReview <==> Disturbed(repository))
      && (d == Abandoned <==> !Disturbed(repository) && expired && stage == Executing)
      && (d == Recovered <==> repository == Unchanged && expired && stage == RolledBack)
  {
  }

  /** What becomes of an entry by what recovery finds. */
  function Outcome(before: Option<Entry>, stage: Stage, f: Finding): Option<Entry> {
    if before.None? || f.Unreachable? then before
    else if f.expired && ((stage == Executing && !Disturbed(f.repository)) || (stage == RolledBack && f.repository == Unchanged))
    then None
    else Some(before.value.(recovery := Some(if Disturbed(f.repository) then ManualReview else Reconciled)))
  }

  function EntryOf(journal: map<nat, Entry>, id: nat): Option<Entry> {
    if id in journal then Some(journal[id]) else None
  }

  lemma OneEntry(journal: map<nat, Entry>, id: nat, stage: Stage, f: Finding, other: nat)
    ensures var journal' := RecoverEntry(journal, id, stage, f);
      EntryOf(journal', other) == if other == id then Outcome(EntryOf(journal, id), stage, f) else EntryOf(journal, other)
  {
    hide RecoveryDecision;
    if f.Finding? {
      DecisionIff(stage, f.expired, f.repository);
    }
  }

  /** The first `n` entries have their outcome, the others are untouched. */
  ghost predicate HaveOutcomes(s: State, t: State, entries: seq<(nat, Stage)>, findings: seq<Finding>, n: nat)
    requires n <= |entries| == |findings|
  {
    && (forall k :: 0 <= k < n ==>
          EntryOf(t.journal, entries[k].0) == Outcome(EntryOf(s.journal, entries[k].0), entries[k].1, findings[k]))
    && forall id :: (forall k :: 0 <= k < n ==> entries[k].0 != id) ==> EntryOf(t.journal, id) == EntryOf(s.journal, id)
  }

  ghost predicate DistinctIds(entries: seq<(nat, Stage)>) {
    forall i, j :: 0 <= i < j < |entries| ==> entries[i].0 != entries[j].0
  }

  lemma OneMoreOutcome(s: State, t: State, entries: seq<(nat, Stage)>, findings: seq<Finding>, n: nat)
    requires DistinctIds(entries) && n < |entries| == |findings| && HaveOutcomes(s, t, entries, findings, n)
    requires t.mode == Recovering(entries[n..])
    ensures HaveOutcomes(s, RecoverNext(t, findings[n]), entries, findings, n + 1)
  {
    hide Outcome, RecoverEntry, EntryOf, ClosesWith;
    var t' := RecoverNext(t, findings[n]);
    assert entries[n..][0] == entries[n];
    forall id {
      OneEntry(t.journal, entries[n].0, entries[n].1, findings[n], id);
    }
    forall id | forall k :: 0 <= k < n + 1 ==> entries[k].0 != id ensures EntryOf(t'.journal, id) == EntryOf(s.journal, id) {
      assert entries[n].0 != id;
      assert forall k :: 0 <= k < n ==> entries[k].0 != id;
    }
    assert EntryOf(t.journal, entries[n].0) == EntryOf(s.journal, entries[n].0);
  }

  lemma {:induction false} RecoveredSoFar(limits: Limits, s: State, entries: seq<(nat, Stage)>, findings: seq<Finding>, n: nat)
    requires s.mode.Down? && ListsUnfinished(s.journal, entries) && n <= |entries| == |findings|
    ensures var steps := [Start(entries)] + Recovers(findings[..n]);
      && Possible(limits, s, steps) && After(limits, s, steps).mode == Recovering(entries[n..])
      && HaveOutcomes(s, After(limits, s, steps), entries, findings, n)
  {
    hide ListsUnfinished, Possible, After, Outcome;
    if n == 0 {
      assert findings[..0] == [] && entries[0..] == entries;
      StartOnly(limits, s, entries);
    } else {
      RecoveredSoFar(limits, s, entries, findings, n - 1);
      OneMoreRecovered(limits, s, entries, findings, n - 1);
      ListedOnce(s.journal, entries);
      OneMoreOutcome(s, After(limits, s, [Start(entries)] + Recovers(findings[..n - 1])), entries, findings, n - 1);
    }
  }

  lemma ListedOnce(journal: map<nat, Entry>, entries: seq<(nat, Stage)>)
    requires ListsUnfinished(journal, entries)
    ensures DistinctIds(entries)
  {
  }

  /** When the coordinator is up again, every unfinished entry has its outcome: it is gone where recovery closes it, unchanged
      where an error came up, and else notes the decision and nothing else; completed entries are as they were. */
  lemma {:induction false} RecoveryLeaves(limits: Limits, s: State, entries: seq<(nat, Stage)>, findings: seq<Finding>)
    requires s.mode.Down? && ListsUnfinished(s.journal, entries) && |entries| == |findings|
    ensures var steps := RecoverySteps(entries, findings);
      && Possible(limits, s, steps) && After(limits, s, steps).mode == Up
      && HaveOutcomes(s, After(limits, s, steps), entries, findings, |entries|)
  {
    hide ListsUnfinished, Possible, After, Outcome;
    RecoveredSoFar(limits, s, entries, findings, |entries|);
    assert findings[..|entries|] == findings;
    OneMoreStep(limits, s, [Start(entries)] + Recovers(findings), Ready);
  }

  // ----- Notes outlive updates -----

  /** An update with nothing in between changes the stage and keeps the task and the note of the last recovery. */
  lemma {:induction false} UpdateKeepsNote(limits: Limits, s: State, i: nat)
    requires i < |s.slots| && CanFetch(s.journal, s.slots[i])
    ensures var steps, id := [Fetch(i), Merge(i), Land(i)], s.slots[i].assignment;
      && Possible(limits, s, steps)
      && After(limits, s, steps).journal == s.journal[id := s.journal[id].(stage := NotedStage(s.slots[i].point))]
  {
    var steps := [Fetch(i), Merge(i), Land(i)];
    var s1 := Next(limits, s, steps[0]);
    var s2 := Next(limits, s1, steps[1]);
    assert steps[1..] == [steps[1], steps[2]] && steps[1..][1..] == [steps[2]] && steps[1..][1..][1..] == [];
    var s3 := Next(limits, s2, steps[2]);
    assert Possible(limits, s3, []) && After(limits, s3, []) == s3;
    assert Possible(limits, s2, [steps[2]]) && After(limits, s2, [steps[2]]) == s3;
    assert Possible(limits, s1, steps[1..]) && After(limits, s1, steps[1..]) == s3;
  }

  /** The first write of a slot makes an accepted entry for its task, with the note an entry that is still there has. */
  lemma {:induction false} FirstWriteKeepsNote(limits: Limits, s: State, i: nat)
    requires i < |s.slots| && s.slots[i].point == Write(Requested)
    ensures var steps, slot := [Merge(i), Land(i)], s.slots[i];
      && Possible(limits, s, steps)
      && After(limits, s, steps).journal == s.journal[slot.assignment :=
           Entry(slot.task, Accepted, if slot.assignment in s.journal then s.journal[slot.assignment].recovery else None)]
  {
    var steps := [Merge(i), Land(i)];
    var s1 := Next(limits, s, steps[0]);
    assert steps[1..] == [steps[1]] && steps[1..][1..] == [];
    var s2 := Next(limits, s1, steps[1]);
    assert Possible(limits, s2, []) && After(limits, s2, []) == s2;
    assert Possible(limits, s1, steps[1..]) && After(limits, s1, steps[1..]) == s2;
  }
}
