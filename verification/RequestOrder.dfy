// In which order a slot of the coordinator sends its requests and writes its journal, told by what it has sent, what was
// answered and what reached the disk (desktop/runtime/worker-coordinator.js, runAssignment).
module RequestOrder {
  import opened Coordinator
  import opened Wrappers

  datatype Event = Sent(request: Request) | Answered(request: Request) | Noted(stage: Stage)

  function SentEvent(r: Option<Request>): seq<Event> {
    if r.Some? then [Sent(r.value)] else []
  }

  function AnsweredEvent(r: Option<Request>): seq<Event> {
    if r.Some? then [Answered(r.value)] else []
  }

  /** What a step adds to the history of slot `i`. */
  function Adds(s: State, step: Step, i: nat): seq<Event>
    requires i < |s.slots|
  {
    var slot := s.slots[i];
    if step == Resume(i) then AnsweredEvent(Awaited(slot.point)) + SentEvent(Sends(slot))
    else if step == Land(i) && IsWrite(slot.point) then [Noted(NotedStage(slot.point))]
    else if step == Fail(i) then [Sent(FailAssignment)]
    else []
  }

  /** A crash ends all slots and what they have told. */
  function Told(s: State, step: Step, i: nat, h: seq<Event>): seq<Event> {
    if step.Crash? then [] else if i < |s.slots| then h + Adds(s, step, i) else h
  }

  /** What slot `i` has sent, seen answered and written since it was started, when `h` is what it had before. */
  ghost function History(limits: Limits, s: State, steps: seq<Step>, i: nat, h: seq<Event>): seq<Event>
    requires Possible(limits, s, steps)
    decreases |steps|
  {
    if steps == [] then h
    else History(limits, Next(limits, s, steps[0]), steps[1..], i, Told(s, steps[0], i, h))
  }

  // ----- The order -----

  /** All that happens before the executor reports its stages. */
  const OPENING: seq<Event> := [
    Noted(Accepted), Sent(AcceptAssignment), Answered(AcceptAssignment), Sent(ClaimTask), Answered(ClaimTask),
    Noted(Claimed), Noted(ContextHydrated), Sent(CallExecutor)]

  /** All that happens behind them, up to the acknowledgement. */
  const CLOSING: seq<Event> := [
    Answered(CallExecutor), Sent(PostToolEvidence), Answered(PostToolEvidence), Sent(SendChangeSet),
    Answered(SendChangeSet), Noted(Verifying), Sent(FinishTask), Answered(FinishTask), Sent(CompleteAssignment)]

  predicate IsStageNote(e: Event) {
    e.Noted? && e.stage in {Executing, PatchStaged, Applied, RolledBack}
  }

  /** The opening, any stages of the executor, and as much of the closing as the last number says. */
  predicate InOrder(h: seq<Event>, n: nat)
    requires n <= |CLOSING|
  {
    && |OPENING| + n <= |h|
    && h[..|OPENING|] == OPENING
    && h[|h| - n..] == CLOSING[..n]
    && forall k :: |OPENING| <= k < |h| - n ==> IsStageNote(h[k])
  }

  /** How far a slot that waits at this point has come, in the opening and behind it. */
  predicate Reached(point: Point, h: seq<Event>) {
    match point
    case Write(phase) => h == OPENING[..if phase.Landed? then 1 else 0]
    case Accept => h == OPENING[..2]
    case Claim => h == OPENING[..4]
    case NoteClaimed(phase) => h == OPENING[..if phase.Landed? then 6 else 5]
    case NoteHydrated(phase) => h == OPENING[..if phase.Landed? then 7 else 6]
    case Execute => InOrder(h, 0)
    case NoteStage(stage, _) => InOrder(h, 0) && IsStageNote(Noted(stage))
    case Drain => InOrder(h, 1)
    case PostEvidence => InOrder(h, 2)
    case PostChangeSet => InOrder(h, 4)
    case NoteVerifying(phase) => InOrder(h, if phase.Landed? then 6 else 5)
    case CompleteTask => InOrder(h, 7)
    case Complete => InOrder(h, 9)
    case _ => true
  }

  ghost predicate Follows(s: State, i: nat, h: seq<Event>) {
    if i < |s.slots| then Reached(s.slots[i].point, h) else h == []
  }

  lemma FurtherOn(h: seq<Event>, n: nat, m: nat)
    requires n <= m <= |CLOSING| && InOrder(h, n)
    ensures InOrder(h + CLOSING[n..m], m)
  {
    hide IsStageNote;
    var g := h + CLOSING[n..m];
    assert g[..|OPENING|] == h[..|OPENING|];
    assert g[|g| - m..] == h[|h| - n..] + CLOSING[n..m] == CLOSING[..m];
    assert forall k :: 0 <= k < |h| ==> g[k] == h[k];
  }

  lemma OneMoreStage(h: seq<Event>, e: Event)
    requires InOrder(h, 0) && IsStageNote(e)
    ensures InOrder(h + [e], 0)
  {
    assert (h + [e])[..|OPENING|] == h[..|OPENING|];
  }

  lemma OneMoreOpening(n: nat)
    requires n < |OPENING|
    ensures OPENING[..n] + [OPENING[n]] == OPENING[..n + 1]
  {
  }

  lemma Opened()
    ensures InOrder(OPENING, 0)
  {
  }

  /** The history when a slot goes on. */
  function OnResume(slot: Slot, h: seq<Event>): seq<Event> {
    h + (AnsweredEvent(Awaited(slot.point)) + SentEvent(Sends(slot)))
  }

  predicate Opening(point: Point) {
    point.Write? || point.Accept? || point.Claim? || point.NoteClaimed? || point.NoteHydrated? || point.NoteStage?
  }

  lemma OpeningReached(slot: Slot, h: seq<Event>)
    requires CanResume(slot) && Reached(slot.point, h) && Opening(slot.point)
    ensures Reached(Resumed(slot).point, OnResume(slot, h))
  {
    hide InOrder, IsStageNote;
    match slot.point
    case Write(_) =>
      assert OnResume(slot, h) == OPENING[..2];
    case Accept =>
      assert OnResume(slot, h) == OPENING[..4];
    case Claim =>
      assert OnResume(slot, h) == OPENING[..5];
    case NoteClaimed(_) =>
      assert OnResume(slot, h) == h;
    case NoteHydrated(_) =>
      assert OnResume(slot, h) == OPENING;
      Opened();
    case NoteStage(_, _) =>
      assert OnResume(slot, h) == h;
  }

  /** How far a point is in the closing. */
  function Passed(point: Point): nat {
    match point
    case Execute => 0
    case Drain => 1
    case PostEvidence => 2
    case PostChangeSet => 4
    case NoteVerifying(phase) => if phase.Landed? then 6 else 5
    case CompleteTask => 7
    case Complete => 9
    case _ => 9
  }

  predicate Closing(point: Point) {
    point.Execute? || point.Drain? || point.PostEvidence? || point.PostChangeSet? || point.NoteVerifying? || point.CompleteTask?
  }

  lemma ClosingEvents(slot: Slot)
    requires CanResume(slot) && Closing(slot.point)
    ensures Passed(slot.point) <= Passed(Resumed(slot).point) <= |CLOSING|
    ensures AnsweredEvent(Awaited(slot.point)) + SentEvent(Sends(slot))
      == CLOSING[Passed(slot.point)..Passed(Resumed(slot).point)]
  {
  }

  lemma ClosingReached(slot: Slot, h: seq<Event>)
    requires CanResume(slot) && Reached(slot.point, h) && Closing(slot.point)
    ensures Reached(Resumed(slot).point, OnResume(slot, h))
  {
    hide InOrder, IsStageNote, Awaited, Sends;
    ClosingEvents(slot);
    FurtherOn(h, Passed(slot.point), Passed(Resumed(slot).point));
  }

  lemma LandReached(slot: Slot, h: seq<Event>)
    requires CanLand(slot) && Reached(slot.point, h)
    ensures Reached(AfterLanding(slot).point, h + if IsWrite(slot.point) then [Noted(NotedStage(slot.point))] else [])
  {
    hide InOrder, IsStageNote;
    match slot.point
    case Write(_) => OneMoreOpening(0);
    case NoteClaimed(_) => OneMoreOpening(5);
    case NoteHydrated(_) => OneMoreOpening(6);
    case NoteStage(stage, _) => OneMoreStage(h, Noted(stage));
    case NoteVerifying(_) =>
      FurtherOn(h, 5, 6);
      assert CLOSING[5..6] == [Noted(Verifying)];
    case _ =>
  }

  lemma ResumeReached(slot: Slot, h: seq<Event>)
    requires CanResume(slot) && Reached(slot.point, h)
    ensures Reached(Resumed(slot).point, OnResume(slot, h))
  {
    hide OnResume, InOrder, Awaited, Sends;
    if Opening(slot.point) {
      OpeningReached(slot, h);
    } else if Closing(slot.point) {
      ClosingReached(slot, h);
    }
  }

  // ----- Every run -----

  /** Only these three steps move slot `i` past an await; a reported stage and the other steps add nothing. */
  lemma StepFollows(limits: Limits, s: State, step: Step, i: nat, h: seq<Event>)
    requires Enabled(s, step) && Follows(s, i, h)
    ensures Follows(Next(limits, s, step), i, Told(s, step, i, h))
  {
    hide InOrder, Resumed, Sends, Awaited, PollFrom, ListsUnfinished, CanResume;
    assert i < |s.slots| && Adds(s, step, i) == [] ==> h + Adds(s, step, i) == h;
    match step
    case Poll(available) =>
      PollAppends(limits, s.slots, available);
      var slots' := PollFrom(limits, s.slots, available);
      if i < |s.slots| {
        assert slots'[i] == slots'[..|s.slots|][i];
      } else if i < |slots'| {
        assert OPENING[..0] == [];
      }
    case Resume(j) =>
      if i == j {
        ResumeReached(s.slots[i], h);
      }
    case Land(j) =>
      if i == j {
        LandReached(s.slots[i], h);
        assert !IsWrite(s.slots[i].point) ==> h + [] == h;
      }
    case Hook(j, stage) =>
    case _ =>
  }

  lemma {:induction false} RunFollows(limits: Limits, s: State, steps: seq<Step>, i: nat, h: seq<Event>)
    requires Possible(limits, s, steps) && Follows(s, i, h)
    ensures Follows(After(limits, s, steps), i, History(limits, s, steps, i, h))
    decreases |steps|
  {
    hide Follows, Enabled, Next, Told;
    if steps != [] {
      StepFollows(limits, s, steps[0], i, h);
      RunFollows(limits, Next(limits, s, steps[0]), steps[1..], i, Told(s, steps[0], i, h));
    }
  }

  /** In every run, every slot has sent, seen answered and written exactly what comes before the await it is at, each once
      and in this order, whatever the other slots do. */
  lemma {:induction false} SlotsKeepOrder(limits: Limits, steps: seq<Step>, i: nat)
    requires Possible(limits, INITIAL, steps) && i < |After(limits, INITIAL, steps).slots|
    ensures Reached(After(limits, INITIAL, steps).slots[i].point, History(limits, INITIAL, steps, i, []))
  {
    hide Reached, Possible, After;
    RunFollows(limits, INITIAL, steps, i, []);
  }

  lemma {:induction false} LastStep(limits: Limits, s: State, steps: seq<Step>)
    requires Possible(limits, s, steps) && steps != []
    ensures var front, last := steps[..|steps| - 1], steps[|steps| - 1];
      && Possible(limits, s, front) && Enabled(After(limits, s, front), last)
      && After(limits, s, steps) == Next(limits, After(limits, s, front), last)
    decreases |steps|
  {
    hide Enabled, Next;
    var front := steps[..|steps| - 1];
    if |steps| == 1 {
      assert front == [] && steps[1..] == [];
    } else {
      LastStep(limits, Next(limits, s, steps[0]), steps[1..]);
      assert front[0] == steps[0] && front[1..] == steps[1..][..|steps[1..]| - 1];
    }
  }

  /** Step `n` of the run receives the acknowledgement of assignment `a`, for a slot that has accepted and claimed it, has
      called the executor, has posted evidence and change set, noted that it is verifying and completed the task. */
  ghost predicate AcknowledgedAt(limits: Limits, steps: seq<Step>, n: nat, i: nat, a: nat) {
    && n < |steps| && steps[n] == Resume(i) && Possible(limits, INITIAL, steps[..n])
    && var s := After(limits, INITIAL, steps[..n]);
      && i < |s.slots| && s.slots[i].assignment == a
      && InOrder(History(limits, INITIAL, steps[..n], i, []), |CLOSING|)
  }

  lemma AckedNow(limits: Limits, s: State, step: Step, a: nat)
    requires Enabled(s, step) && a in Next(limits, s, step).acked && a !in s.acked
    ensures step.Resume? && step.slot < |s.slots| && s.slots[step.slot].assignment == a && s.slots[step.slot].point.Complete?
  {
    hide PollFrom, RecoverEntry, ClosesWith;
  }

  /** In every run, an assignment that counts as acknowledged got there by a slot that has gone through all of it. */
  lemma {:induction false} AcknowledgedInOrder(limits: Limits, steps: seq<Step>, a: nat) returns (n: nat, i: nat)
    requires Possible(limits, INITIAL, steps) && a in After(limits, INITIAL, steps).acked
    ensures AcknowledgedAt(limits, steps, n, i, a)
    decreases |steps|
  {
    hide Possible, After, Enabled, Next, InOrder, History;
    assert steps == [] ==> After(limits, INITIAL, steps) == INITIAL by {
      NoSteps(limits);
    }
    LastStep(limits, INITIAL, steps);
    var front := steps[..|steps| - 1];
    var s := After(limits, INITIAL, front);
    if a in s.acked {
      n, i := AcknowledgedInOrder(limits, front, a);
      assert front[..n] == steps[..n];
    } else {
      n := |steps| - 1;
      AckedNow(limits, s, steps[n], a);
      i := steps[n].slot;
      SlotsKeepOrder(limits, front, i);
    }
  }

  lemma NoSteps(limits: Limits)
    ensures Possible(limits, INITIAL, []) && After(limits, INITIAL, []) == INITIAL
  {
  }
}
