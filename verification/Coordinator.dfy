// The desktop worker coordinator (desktop/runtime/worker-coordinator.js) with its durable journal
// (desktop/runtime/recovery). Each slot runs runAssignment; the code between two awaits is one step, a journal write
// takes effect in a step of its own, steps of different slots interleave, and a crash may come anywhere.
module Coordinator {
  import opened Wrappers

  datatype Assignment = Assignment(id: nat, task: nat, executionClass: string)

  datatype Stage =
    | Accepted | Claimed | ContextHydrated | Executing | PatchStaged | Applied | RolledBack | Verifying | Completed

  /** `recovery`: what the last recovery decided about an entry it kept. */
  datatype Entry = Entry(task: nat, stage: Stage, recovery: Option<Decision>)

  datatype Status = Idle | Accepting | Running | Failed

  /** An update of the journal reads the entry; every write reads what it merges into; then it replaces the file. */
  datatype Phase = Requested | Fetched(entry: Entry) | Merged(entry: Entry) | Landed

  /** Where runAssignment is waiting. */
  datatype Point =
    | Write(phase: Phase) | Accept | Claim | NoteClaimed(phase: Phase) | NoteHydrated(phase: Phase)
    | Execute | NoteStage(stage: Stage, phase: Phase)
    | Drain | PostEvidence | PostChangeSet | NoteVerifying(phase: Phase) | CompleteTask | Complete
    | NoteCompleted(phase: Phase) | Remove(landed: bool) | ReportFailure | Ended

  /** `asked`: the accept request has been sent. */
  datatype Slot = Slot(
    assignment: nat, task: nat, executionClass: string, status: Status, point: Point, asked: bool)

  datatype Limits = Limits(total: nat, classes: map<string, nat>)

  /** DEFAULT_LIMITS; a class that is not listed may use every slot. */
  const DEFAULT_CLASSES: map<string, nat> :=
    map["read_only" := 2, "write_sensitive" := 1, "verification" := 1, "integration" := 1, "review" := 1]

  // ----- Capacity -----

  function LimitsFor(maxWorkers: nat, overrides: map<string, nat>): Limits {
    Limits(maxWorkers, DEFAULT_CLASSES + overrides)
  }

  function ClassLimit(limits: Limits, executionClass: string): nat {
    if executionClass in limits.classes then limits.classes[executionClass] else limits.total
  }

  function ClassOf(a: Assignment): string {
    if a.executionClass == "" then "read_only" else a.executionClass
  }

  predicate IsActive(slot: Slot) {
    slot.status !in {Idle, Failed}
  }

  function ActiveSlots(slots: seq<Slot>): seq<Slot> {
    if slots == [] then []
    else ActiveSlots(slots[..|slots| - 1]) + (if IsActive(slots[|slots| - 1]) then [slots[|slots| - 1]] else [])
  }

  function ClassCount(slots: seq<Slot>, executionClass: string): nat {
    if slots == [] then 0
    else
      var last := slots[|slots| - 1];
      ClassCount(slots[..|slots| - 1], executionClass) +
      if IsActive(last) && last.executionClass == executionClass then 1 else 0
  }

  predicate HasCapacity(limits: Limits, slots: seq<Slot>, a: Assignment) {
    && |ActiveSlots(slots)| < limits.total
    && (forall i :: 0 <= i < |slots| && IsActive(slots[i]) ==> slots[i].assignment != a.id && slots[i].task != a.task)
    && ClassCount(slots, ClassOf(a)) < ClassLimit(limits, ClassOf(a))
  }

  /** A new slot, already past the synchronous beginning of runAssignment. */
  function StartedSlot(a: Assignment): Slot {
    Slot(a.id, a.task, ClassOf(a), Accepting, Write(Requested), false)
  }

  function PollFrom(limits: Limits, slots: seq<Slot>, available: seq<Assignment>): seq<Slot>
    decreases |available|
  {
    if available == [] then slots
    else
      var a := available[0];
      PollFrom(limits, if HasCapacity(limits, slots, a) then slots + [StartedSlot(a)] else slots, available[1..])
  }

  ghost predicate UniqueWork(slots: seq<Slot>) {
    forall i, j :: 0 <= i < j < |slots| && IsActive(slots[i]) && IsActive(slots[j]) ==>
      slots[i].assignment != slots[j].assignment && slots[i].task != slots[j].task
  }

  ghost predicate WithinLimits(limits: Limits, slots: seq<Slot>) {
    && |ActiveSlots(slots)| <= limits.total
    && (forall c :: ClassCount(slots, c) <= ClassLimit(limits, c))
    && UniqueWork(slots)
  }

  lemma Appended(slots: seq<Slot>, slot: Slot, c: string)
    ensures |ActiveSlots(slots + [slot])| == |ActiveSlots(slots)| + if IsActive(slot) then 1 else 0
    ensures ClassCount(slots + [slot], c) == ClassCount(slots, c) + if IsActive(slot) && slot.executionClass == c then 1 else 0
  {
    assert (slots + [slot])[..|slots|] == slots;
  }

  lemma {:induction false} Updated(slots: seq<Slot>, i: nat, slot: Slot, c: string)
    requires i < |slots| && (IsActive(slot) ==> IsActive(slots[i])) && slot.executionClass == slots[i].executionClass
    ensures |ActiveSlots(slots[i := slot])| <= |ActiveSlots(slots)|
    ensures ClassCount(slots[i := slot], c) <= ClassCount(slots, c)
    decreases |slots|
  {
    var front, n := slots[..|slots| - 1], |slots| - 1;
    if i < n {
      Updated(front, i, slot, c);
      assert slots[i := slot][..n] == front[i := slot];
    } else {
      assert slots[i := slot][..n] == front;
    }
  }

  lemma StartKeepsLimits(limits: Limits, slots: seq<Slot>, a: Assignment)
    requires WithinLimits(limits, slots) && HasCapacity(limits, slots, a)
    ensures WithinLimits(limits, slots + [StartedSlot(a)])
  {
    hide ActiveSlots, ClassCount, ClassLimit;
    var slots' := slots + [StartedSlot(a)];
    Appended(slots, StartedSlot(a), "");
    forall c ensures ClassCount(slots', c) <= ClassLimit(limits, c) {
      Appended(slots, StartedSlot(a), c);
    }
  }

  /** A step that only changes status and point, and activates nothing, keeps the limits. */
  lemma MoveKeepsLimits(limits: Limits, slots: seq<Slot>, i: nat, slot: Slot)
    requires WithinLimits(limits, slots) && i < |slots| && (IsActive(slot) ==> IsActive(slots[i]))
    requires slot == slots[i].(status := slot.status, point := slot.point, asked := slot.asked)
    ensures WithinLimits(limits, slots[i := slot])
  {
    hide ActiveSlots, ClassCount, ClassLimit;
    Updated(slots, i, slot, "");
    forall c ensures ClassCount(slots[i := slot], c) <= ClassLimit(limits, c) {
      Updated(slots, i, slot, c);
    }
  }

  lemma {:induction false} PollKeepsLimits(limits: Limits, slots: seq<Slot>, available: seq<Assignment>)
    requires WithinLimits(limits, slots)
    ensures WithinLimits(limits, PollFrom(limits, slots, available))
    decreases |available|
  {
    hide WithinLimits, HasCapacity;
    if available != [] {
      var a := available[0];
      if HasCapacity(limits, slots, a) {
        StartKeepsLimits(limits, slots, a);
        PollKeepsLimits(limits, slots + [StartedSlot(a)], available[1..]);
      } else {
        PollKeepsLimits(limits, slots, available[1..]);
      }
    }
  }

  lemma StillNoCapacity(limits: Limits, slots: seq<Slot>, b: Assignment, a: Assignment)
    requires !HasCapacity(limits, slots, a)
    ensures !HasCapacity(limits, slots + [StartedSlot(b)], a)
  {
    var slots' := slots + [StartedSlot(b)];
    Appended(slots, StartedSlot(b), ClassOf(a));
    assert forall i :: 0 <= i < |slots| ==> slots'[i] == slots[i];
  }

  lemma {:induction false} NoCapacityLater(limits: Limits, slots: seq<Slot>, available: seq<Assignment>, a: Assignment)
    requires !HasCapacity(limits, slots, a)
    ensures !HasCapacity(limits, PollFrom(limits, slots, available), a)
    decreases |available|
  {
    hide HasCapacity;
    if available != [] {
      StillNoCapacity(limits, slots, available[0], a);
      NoCapacityLater(limits,
                      if HasCapacity(limits, slots, available[0]) then slots + [StartedSlot(available[0])] else slots,
                      available[1..], a);
    }
  }

  /** A poll takes all it can: afterwards none of the offered assignments could still be started. */
  lemma {:induction false} PollIsMaximal(limits: Limits, slots: seq<Slot>, available: seq<Assignment>, i: nat)
    requires i < |available|
    ensures !HasCapacity(limits, PollFrom(limits, slots, available), available[i])
    decreases |available|
  {
    hide HasCapacity;
    var a := available[0];
    var slots' := if HasCapacity(limits, slots, a) then slots + [StartedSlot(a)] else slots;
    if i > 0 {
      PollIsMaximal(limits, slots', available[1..], i - 1);
    } else {
      OwnSlotBlocks(limits, slots, a);
      NoCapacityLater(limits, slots', available[1..], a);
    }
  }

  lemma OwnSlotBlocks(limits: Limits, slots: seq<Slot>, a: Assignment)
    ensures !HasCapacity(limits, slots + [StartedSlot(a)], a)
  {
    var slots' := slots + [StartedSlot(a)];
    assert IsActive(slots'[|slots|]) && slots'[|slots|].assignment == a.id;
  }

  // ----- One slot -----

  predicate IsUpdate(point: Point) {
    point.NoteClaimed? || point.NoteHydrated? || point.NoteStage? || point.NoteVerifying? || point.NoteCompleted?
  }

  /** A write of its own, or an update. */
  predicate IsWrite(point: Point) {
    point.Write? || IsUpdate(point)
  }

  function WithPhase(point: Point, phase: Phase): Point
    requires IsWrite(point)
  {
    match point
    case Write(_) => Write(phase)
    case NoteClaimed(_) => NoteClaimed(phase)
    case NoteHydrated(_) => NoteHydrated(phase)
    case NoteStage(stage, _) => NoteStage(stage, phase)
    case NoteVerifying(_) => NoteVerifying(phase)
    case NoteCompleted(_) => NoteCompleted(phase)
  }

  /** The stage that is written. */
  function NotedStage(point: Point): Stage
    requires IsWrite(point)
  {
    match point
    case Write(_) => Accepted
    case NoteClaimed(_) => Claimed
    case NoteHydrated(_) => ContextHydrated
    case NoteStage(stage, _) => stage
    case NoteVerifying(_) => Verifying
    case NoteCompleted(_) => Completed
  }

  /** Reading the entry fails when there is none. */
  predicate CanFetch(journal: map<nat, Entry>, slot: Slot) {
    IsUpdate(slot.point) && slot.point.phase.Requested? && slot.assignment in journal
  }

  function FetchedSlot(journal: map<nat, Entry>, slot: Slot): Slot
    requires CanFetch(journal, slot)
  {
    slot.(point := WithPhase(slot.point, Fetched(journal[slot.assignment])))
  }

  function FirstOf(a: Option<Decision>, journal: map<nat, Entry>, id: nat): Option<Decision> {
    if a.Some? then a else if id in journal then journal[id].recovery else None
  }

  /** The write reads what the entry holds by then. */
  predicate CanMerge(slot: Slot) {
    (slot.point.Write? && slot.point.phase.Requested?) || (IsUpdate(slot.point) && slot.point.phase.Fetched?)
  }

  /** Its own fields over those of the entry. */
  function MergedEntry(journal: map<nat, Entry>, slot: Slot): Entry
    requires CanMerge(slot)
  {
    var own := if slot.point.Write? then Entry(slot.task, Accepted, None) else slot.point.phase.entry;
    Entry(own.task, NotedStage(slot.point), FirstOf(own.recovery, journal, slot.assignment))
  }

  function MergedSlot(journal: map<nat, Entry>, slot: Slot): Slot
    requires CanMerge(slot)
  {
    slot.(point := WithPhase(slot.point, Merged(MergedEntry(journal, slot))))
  }

  predicate CanLand(slot: Slot) {
    (slot.point.Remove? && !slot.point.landed) || (IsWrite(slot.point) && slot.point.phase.Merged?)
  }

  /** The file is removed, or replaced by the merged entry, whatever has been written in between. */
  function LandedJournal(journal: map<nat, Entry>, slot: Slot): map<nat, Entry>
    requires CanLand(slot)
  {
    var id := slot.assignment;
    if slot.point.Remove? then journal - {id} else journal[id := slot.point.phase.entry]
  }

  function AfterLanding(slot: Slot): Slot
    requires CanLand(slot)
  {
    if slot.point.Remove? then slot.(point := Remove(true)) else slot.(point := WithPhase(slot.point, Landed))
  }

  predicate CanResume(slot: Slot) {
    && !slot.point.Ended?
    && (slot.point.Remove? ==> slot.point.landed)
    && (IsWrite(slot.point) ==> slot.point.phase.Landed?)
  }

  /** The code from one await to the next. */
  function Resumed(slot: Slot): Slot {
    match slot.point
    case Write(_) => slot.(point := Accept, asked := true)
    case Accept => slot.(point := Claim)
    case Claim => slot.(point := NoteClaimed(Requested))
    case NoteClaimed(_) => slot.(point := NoteHydrated(Requested), status := Running)
    case NoteHydrated(_) => slot.(point := Execute)
    case Execute => slot.(point := Drain)
    case NoteStage(_, _) => slot.(point := Execute)
    case Drain => slot.(point := PostEvidence)
    case PostEvidence => slot.(point := PostChangeSet)
    case PostChangeSet => slot.(point := NoteVerifying(Requested))
    case NoteVerifying(_) => slot.(point := CompleteTask)
    case CompleteTask => slot.(point := Complete)
    case Complete => slot.(point := NoteCompleted(Requested), status := Idle)
    case NoteCompleted(_) => slot.(point := Remove(false))
    case Remove(_) => slot.(point := Ended)
    case ReportFailure => slot.(point := Ended)
    case Ended => slot
  }

  // ----- Requests -----

  /** What runAssignment sends or calls, and then waits for. */
  datatype Request =
    | AcceptAssignment | ClaimTask | CallExecutor | PostToolEvidence | SendChangeSet | FinishTask | CompleteAssignment
    | FailAssignment

  /** The request whose answer a slot is waiting for. */
  function Awaited(point: Point): Option<Request> {
    match point
    case Accept => Some(AcceptAssignment)
    case Claim => Some(ClaimTask)
    case Execute => Some(CallExecutor)
    case PostEvidence => Some(PostToolEvidence)
    case PostChangeSet => Some(SendChangeSet)
    case CompleteTask => Some(FinishTask)
    case Complete => Some(CompleteAssignment)
    case ReportFailure => Some(FailAssignment)
    case _ => None
  }

  /** What the slot sends when it goes on; the executor that has reported a stage is still the one that was called. */
  function Sends(slot: Slot): Option<Request> {
    if slot.point.NoteStage? then None else Awaited(Resumed(slot).point)
  }

  function ToList(i: nat, r: Option<Request>): seq<(nat, Request)> {
    if r.Some? then [(i, r.value)] else []
  }

  // ----- Recovery -----

  datatype RepositoryState =
    | Unchanged | ExpectedModified | UnexpectedlyCreated | PartiallyModified | Conflicted | ExternallyModified | Missing

  datatype Decision = ManualReview | Reconciled | Recovered | Abandoned

  function RecoveryDecision(stage: Stage, expired: bool, repository: RepositoryState): Decision {
    if repository in {PartiallyModified, Conflicted, ExternallyModified, Missing} then ManualReview
    else if stage == PatchStaged && expired then Reconciled
    else if stage == Applied && expired && repository == ExpectedModified then Reconciled
    else if stage == RolledBack && expired && repository == Unchanged then Recovered
    else if stage == Executing && expired then Abandoned
    else Reconciled
  }

  predicate Closes(d: Decision) {
    d in {Abandoned, Recovered}
  }

  /** What recovery learns about one entry, or an error on the way. */
  datatype Finding = Finding(expired: bool, repository: RepositoryState) | Unreachable

  predicate ClosesWith(stage: Stage, f: Finding) {
    f.Finding? && Closes(RecoveryDecision(stage, f.expired, f.repository))
  }

  /** A closed entry is removed, a kept one notes the decision, an error skips it. */
  function RecoverEntry(journal: map<nat, Entry>, id: nat, stage: Stage, f: Finding): map<nat, Entry> {
    if ClosesWith(stage, f) then journal - {id}
    else if f.Finding? && id in journal then
      journal[id := journal[id].(recovery := Some(RecoveryDecision(stage, f.expired, f.repository)))]
    else journal
  }

  /** One of the first `n` entries is `id`, and recovery closes it. */
  ghost predicate ClosedAmong(todo: seq<(nat, Stage)>, findings: seq<Finding>, n: nat, id: nat)
    requires n <= |todo| == |findings|
  {
    exists k :: 0 <= k < n && todo[k].0 == id && ClosesWith(todo[k].1, findings[k])
  }

  lemma OneMoreClosed(todo: seq<(nat, Stage)>, findings: seq<Finding>, n: nat, id: nat)
    requires n < |todo| == |findings|
    ensures ClosedAmong(todo, findings, n + 1, id) <==>
      (ClosedAmong(todo, findings, n, id) || (todo[n].0 == id && ClosesWith(todo[n].1, findings[n])))
  {
  }

  /** The entries recovery looks at: all but the completed ones. */
  ghost predicate ListsUnfinished(journal: map<nat, Entry>, todo: seq<(nat, Stage)>) {
    && (forall i, j :: 0 <= i < j < |todo| ==> todo[i].0 != todo[j].0)
    && (forall i :: 0 <= i < |todo| ==>
          todo[i].0 in journal && journal[todo[i].0].stage == todo[i].1 && todo[i].1 != Completed)
    && forall id <- journal :: journal[id].stage != Completed ==> exists i :: 0 <= i < |todo| && todo[i].0 == id
  }

  /** Only an expired assignment is closed: one that was executing in a repository without conflicts, or one rolled
      back to its original files. Accepted, claimed, staged, applied and verifying entries are always kept. */
  lemma {:induction false} ClosedOnlyWhenHarmless(stage: Stage, expired: bool, repository: RepositoryState)
    ensures Closes(RecoveryDecision(stage, expired, repository)) <==>
      (expired &&
        ((stage == Executing && repository in {Unchanged, ExpectedModified, UnexpectedlyCreated}) ||
         (stage == RolledBack && repository == Unchanged)))
  {
  }

  // ----- The coordinator -----

  datatype Mode = Down | Recovering(todo: seq<(nat, Stage)>) | Up

  /** `sent`: accepted towards the backend and not closed by recovery. `acked`: completion acknowledged. */
  datatype State = State(mode: Mode, slots: seq<Slot>, journal: map<nat, Entry>, sent: set<nat>, acked: set<nat>)

  datatype Step =
    | Poll(available: seq<Assignment>)
    | Fetch(slot: nat)
    | Merge(slot: nat)
    | Land(slot: nat)
    | Resume(slot: nat)
    | Hook(slot: nat, stage: Stage)
    | Fail(slot: nat)
    | Crash
    | Start(listed: seq<(nat, Stage)>)
    | Recover(finding: Finding)
    | Ready

  ghost predicate Enabled(s: State, step: Step) {
    match step
    case Poll(_) => s.mode.Up?
    case Fetch(i) => i < |s.slots| && CanFetch(s.journal, s.slots[i])
    case Merge(i) => i < |s.slots| && CanMerge(s.slots[i])
    case Land(i) => i < |s.slots| && CanLand(s.slots[i])
    case Resume(i) => i < |s.slots| && CanResume(s.slots[i])
    case Hook(i, stage) =>
      i < |s.slots| && s.slots[i].point.Execute? && stage in {Executing, PatchStaged, Applied, RolledBack}
    case Fail(i) => i < |s.slots| && s.slots[i].point !in {ReportFailure, Ended}
    case Crash => true
    case Start(listed) => s.mode.Down? && ListsUnfinished(s.journal, listed)
    case Recover(_) => s.mode.Recovering? && s.mode.todo != []
    case Ready => s.mode.Recovering? && s.mode.todo == []
  }

  function ResumeSlot(s: State, i: nat): State
    requires i < |s.slots|
  {
    var slot := s.slots[i];
    s.(slots := s.slots[i := Resumed(slot)],
       sent := if slot.point.Write? then s.sent + {slot.assignment} else s.sent,
       acked := if slot.point.Complete? then s.acked + {slot.assignment} else s.acked)
  }

  function RecoverNext(s: State, f: Finding): State
    requires s.mode.Recovering? && s.mode.todo != []
  {
    var (id, stage) := s.mode.todo[0];
    s.(mode := Recovering(s.mode.todo[1..]),
       journal := RecoverEntry(s.journal, id, stage, f),
       sent := if ClosesWith(stage, f) then s.sent - {id} else s.sent)
  }

  ghost function Next(limits: Limits, s: State, step: Step): State
    requires Enabled(s, step)
  {
    match step
    case Poll(available) => s.(slots := PollFrom(limits, s.slots, available))
    case Fetch(i) => s.(slots := s.slots[i := FetchedSlot(s.journal, s.slots[i])])
    case Merge(i) => s.(slots := s.slots[i := MergedSlot(s.journal, s.slots[i])])
    case Land(i) => s.(slots := s.slots[i := AfterLanding(s.slots[i])], journal := LandedJournal(s.journal, s.slots[i]))
    case Resume(i) => ResumeSlot(s, i)
    case Hook(i, stage) => s.(slots := s.slots[i := s.slots[i].(point := NoteStage(stage, Requested))])
    case Fail(i) => s.(slots := s.slots[i := s.slots[i].(status := Failed, point := ReportFailure)])
    case Crash => s.(mode := Down, slots := [])
    case Start(listed) => s.(mode := Recovering(listed))
    case Recover(f) => RecoverNext(s, f)
    case Ready => s.(mode := Up)
  }

  const INITIAL := State(Down, [], map[], {}, {})

  ghost predicate Possible(limits: Limits, s: State, steps: seq<Step>)
    decreases |steps|
  {
    steps != [] ==> Enabled(s, steps[0]) && Possible(limits, Next(limits, s, steps[0]), steps[1..])
  }

  ghost function After(limits: Limits, s: State, steps: seq<Step>): State
    requires Possible(limits, s, steps)
    decreases |steps|
  {
    if steps == [] then s else After(limits, Next(limits, s, steps[0]), steps[1..])
  }

  // ----- What every step keeps -----

  /** The accept request has been sent, the completion not yet been acknowledged. */
  predicate InFlight(point: Point) {
    point.Accept? || point.Claim? || point.NoteClaimed? || point.NoteHydrated? || point.Execute? || point.NoteStage? ||
    point.Drain? || point.PostEvidence? || point.PostChangeSet? || point.NoteVerifying? || point.CompleteTask? || point.Complete?
  }

  predicate CleaningUp(point: Point) {
    point.NoteCompleted? || point.Remove?
  }

  predicate SlotOk(s: State, slot: Slot) {
    && (IsActive(slot) <==> slot.point.Write? || InFlight(slot.point))
    && (InFlight(slot.point) ==> slot.asked)
    && (slot.asked ==> slot.assignment in s.sent)
    && (CleaningUp(slot.point) ==> slot.assignment in s.acked)
    && (slot.point == Write(Landed) ==> slot.assignment in s.journal || slot.assignment in s.acked)
    && (slot.point.Write? ==> !slot.point.phase.Fetched?)
    && (IsWrite(slot.point) && slot.point.phase.Merged? ==> slot.point.phase.entry.stage == NotedStage(slot.point))
    && (slot.point.NoteStage? ==> slot.point.stage != Completed)
  }

  ghost predicate SlotsOk(s: State) {
    forall i :: 0 <= i < |s.slots| ==> SlotOk(s, s.slots[i])
  }

  /** Every assignment accepted and neither acknowledged nor closed has an entry, and one that recovery looks at. */
  ghost predicate WriteAhead(s: State) {
    && (forall a <- s.sent :: a in s.acked || a in s.journal)
    && forall a <- s.journal :: s.journal[a].stage == Completed ==> a in s.acked
  }

  ghost predicate ModeOk(s: State) {
    && (!s.mode.Up? ==> s.slots == [])
    && (s.mode.Recovering? ==> forall i :: 0 <= i < |s.mode.todo| ==> s.mode.todo[i].1 != Completed)
  }

  ghost predicate Safe(limits: Limits, s: State) {
    SlotsOk(s) && WriteAhead(s) && ModeOk(s) && WithinLimits(limits, s.slots)
  }

  lemma {:induction false} PollAppends(limits: Limits, slots: seq<Slot>, available: seq<Assignment>)
    ensures var slots' := PollFrom(limits, slots, available);
      && |slots| <= |slots'| && slots'[..|slots|] == slots
      && forall i :: |slots| <= i < |slots'| ==> exists k :: 0 <= k < |available| && slots'[i] == StartedSlot(available[k])
    decreases |available|
  {
    hide HasCapacity, StartedSlot;
    if available != [] {
      var a := available[0];
      var next := if HasCapacity(limits, slots, a) then slots + [StartedSlot(a)] else slots;
      PollAppends(limits, next, available[1..]);
      var slots' := PollFrom(limits, slots, available);
      assert slots'[..|slots|] == slots'[..|next|][..|slots|];
      forall i | |slots| <= i < |slots'| ensures exists k :: 0 <= k < |available| && slots'[i] == StartedSlot(available[k]) {
        if i < |next| {
          assert slots'[i] == slots'[..|next|][i] == StartedSlot(available[0]);
        } else {
          var k :| 0 <= k < |available[1..]| && slots'[i] == StartedSlot(available[1..][k]);
          assert slots'[i] == StartedSlot(available[k + 1]);
        }
      }
    }
  }

  lemma PollKeepsSafe(limits: Limits, s: State, available: seq<Assignment>)
    requires Safe(limits, s) && s.mode.Up?
    ensures Safe(limits, Next(limits, s, Poll(available)))
  {
    hide WithinLimits, PollFrom;
    PollKeepsLimits(limits, s.slots, available);
    PollAppends(limits, s.slots, available);
    var s' := Next(limits, s, Poll(available));
    forall i | 0 <= i < |s'.slots| ensures SlotOk(s', s'.slots[i]) {
      if i < |s.slots| {
        assert s'.slots[i] == s'.slots[..|s.slots|][i];
        assert SlotOk(s, s.slots[i]);
      }
    }
  }

  lemma LandKeepsSafe(limits: Limits, s: State, i: nat)
    requires Safe(limits, s) && Enabled(s, Land(i))
    ensures Safe(limits, Next(limits, s, Land(i)))
  {
    hide WithinLimits;
    var slot, s' := s.slots[i], Next(limits, s, Land(i));
    assert SlotOk(s, slot);
    MoveKeepsLimits(limits, s.slots, i, AfterLanding(slot));
    forall j | 0 <= j < |s'.slots| ensures SlotOk(s', s'.slots[j]) {
      assert SlotOk(s, s.slots[j]);
    }
  }

  lemma FetchKeepsSafe(limits: Limits, s: State, i: nat)
    requires Safe(limits, s) && Enabled(s, Fetch(i))
    ensures Safe(limits, Next(limits, s, Fetch(i)))
  {
    hide WithinLimits;
    var slot, s' := s.slots[i], Next(limits, s, Fetch(i));
    assert SlotOk(s, slot);
    MoveKeepsLimits(limits, s.slots, i, FetchedSlot(s.journal, slot));
    forall j | 0 <= j < |s'.slots| ensures SlotOk(s', s'.slots[j]) {
      assert SlotOk(s, s.slots[j]);
    }
  }

  lemma MergeKeepsSafe(limits: Limits, s: State, i: nat)
    requires Safe(limits, s) && Enabled(s, Merge(i))
    ensures Safe(limits, Next(limits, s, Merge(i)))
  {
    hide WithinLimits;
    var slot, s' := s.slots[i], Next(limits, s, Merge(i));
    assert SlotOk(s, slot);
    MoveKeepsLimits(limits, s.slots, i, MergedSlot(s.journal, slot));
    forall j | 0 <= j < |s'.slots| ensures SlotOk(s', s'.slots[j]) {
      assert SlotOk(s, s.slots[j]);
    }
  }

  lemma ResumeKeepsSafe(limits: Limits, s: State, i: nat)
    requires Safe(limits, s) && Enabled(s, Resume(i))
    ensures Safe(limits, Next(limits, s, Resume(i)))
  {
    hide WithinLimits;
    var slot, s' := s.slots[i], Next(limits, s, Resume(i));
    assert SlotOk(s, slot);
    MoveKeepsLimits(limits, s.slots, i, Resumed(slot));
    forall j | 0 <= j < |s'.slots| ensures SlotOk(s', s'.slots[j]) {
      assert SlotOk(s, s.slots[j]);
    }
  }

  lemma FailKeepsSafe(limits: Limits, s: State, i: nat)
    requires Safe(limits, s) && Enabled(s, Fail(i))
    ensures Safe(limits, Next(limits, s, Fail(i)))
  {
    hide WithinLimits;
    var slot, s' := s.slots[i], Next(limits, s, Fail(i));
    MoveKeepsLimits(limits, s.slots, i, slot.(status := Failed, point := ReportFailure));
    forall j | 0 <= j < |s'.slots| ensures SlotOk(s', s'.slots[j]) {
      assert SlotOk(s, s.slots[j]);
    }
  }

  lemma HookKeepsSafe(limits: Limits, s: State, i: nat, stage: Stage)
    requires Safe(limits, s) && Enabled(s, Hook(i, stage))
    ensures Safe(limits, Next(limits, s, Hook(i, stage)))
  {
    hide WithinLimits;
    var slot, s' := s.slots[i], Next(limits, s, Hook(i, stage));
    assert SlotOk(s, slot);
    MoveKeepsLimits(limits, s.slots, i, slot.(point := NoteStage(stage, Requested)));
    forall j | 0 <= j < |s'.slots| ensures SlotOk(s', s'.slots[j]) {
      assert SlotOk(s, s.slots[j]);
    }
  }

  lemma RecoverKeepsSafe(limits: Limits, s: State, f: Finding)
    requires Safe(limits, s) && Enabled(s, Recover(f))
    ensures Safe(limits, Next(limits, s, Recover(f)))
  {
    hide WithinLimits, RecoveryDecision;
  }

  /** Every step, in whatever interleaving, keeps the coordinator safe. */
  lemma {:induction false} NextSafe(limits: Limits, s: State, step: Step)
    requires Safe(limits, s) && Enabled(s, step)
    ensures Safe(limits, Next(limits, s, step))
  {
    match step
    case Poll(available) => PollKeepsSafe(limits, s, available);
    case Fetch(i) => FetchKeepsSafe(limits, s, i);
    case Merge(i) => MergeKeepsSafe(limits, s, i);
    case Land(i) => LandKeepsSafe(limits, s, i);
    case Resume(i) => ResumeKeepsSafe(limits, s, i);
    case Hook(i, stage) => HookKeepsSafe(limits, s, i, stage);
    case Fail(i) => FailKeepsSafe(limits, s, i);
    case Crash => NoSlots(limits);
    case Start(_) =>
    case Recover(f) => RecoverKeepsSafe(limits, s, f);
    case Ready =>
  }

  lemma NoSlots(limits: Limits)
    ensures WithinLimits(limits, [])
  {
  }

  /** In every run, at every interleaving and every crash point: active slots stay within all limits and never share
      an assignment or a task, and every accepted assignment has its journal entry until it is acknowledged or closed. */
  lemma {:induction false} RunSafe(limits: Limits, s: State, steps: seq<Step>)
    requires Safe(limits, s) && Possible(limits, s, steps)
    ensures Safe(limits, After(limits, s, steps))
    decreases |steps|
  {
    hide Safe, Next, Enabled;
    if steps != [] {
      NextSafe(limits, s, steps[0]);
      RunSafe(limits, Next(limits, s, steps[0]), steps[1..]);
    }
  }

  lemma InitialSafe(limits: Limits)
    ensures Safe(limits, INITIAL)
  {
    NoSlots(limits);
  }

  /** In every run each slot that asked for its assignment, failed ones included, finds an entry for it that recovery
      looks at, as long as the completion is not acknowledged. */
  lemma {:induction false} AskedSlotsKeepEntries(limits: Limits, steps: seq<Step>, i: nat)
    requires Possible(limits, INITIAL, steps) && i < |After(limits, INITIAL, steps).slots|
    ensures var s := After(limits, INITIAL, steps);
      s.slots[i].asked && s.slots[i].assignment !in s.acked ==>
        s.slots[i].assignment in s.journal && s.journal[s.slots[i].assignment].stage != Completed
  {
    hide Possible, After, WithinLimits;
    InitialSafe(limits);
    RunSafe(limits, INITIAL, steps);
    var s := After(limits, INITIAL, steps);
    assert SlotOk(s, s.slots[i]);
  }

  // ----- Write-ahead, told by what happened -----

  /** The step sends the accept request of assignment `a`. */
  predicate Asks(s: State, step: Step, a: nat) {
    step.Resume? && step.slot < |s.slots| && s.slots[step.slot].point.Write? && s.slots[step.slot].assignment == a
  }

  /** The step receives the acknowledgement of the completion of `a`. */
  predicate Acknowledges(s: State, step: Step, a: nat) {
    step.Resume? && step.slot < |s.slots| && s.slots[step.slot].point.Complete? && s.slots[step.slot].assignment == a
  }

  predicate ClosesEntry(s: State, step: Step, a: nat) {
    step.Recover? && s.mode.Recovering? && s.mode.todo != [] && s.mode.todo[0].0 == a && ClosesWith(s.mode.todo[0].1, step.finding)
  }

  /** No step of the run acknowledges `a`. */
  ghost predicate Unacknowledged(limits: Limits, s: State, steps: seq<Step>, a: nat)
    requires Possible(limits, s, steps)
    decreases |steps|
  {
    steps != [] ==> !Acknowledges(s, steps[0], a) && Unacknowledged(limits, Next(limits, s, steps[0]), steps[1..], a)
  }

  ghost predicate Unclosed(limits: Limits, s: State, steps: seq<Step>, a: nat)
    requires Possible(limits, s, steps)
    decreases |steps|
  {
    steps != [] ==> !ClosesEntry(s, steps[0], a) && Unclosed(limits, Next(limits, s, steps[0]), steps[1..], a)
  }

  lemma {:induction false} StaysUnacknowledged(limits: Limits, s: State, steps: seq<Step>, a: nat)
    requires Possible(limits, s, steps) && Unacknowledged(limits, s, steps, a) && a !in s.acked
    ensures a !in After(limits, s, steps).acked
    decreases |steps|
  {
    hide PollFrom;
    if steps != [] {
      StaysUnacknowledged(limits, Next(limits, s, steps[0]), steps[1..], a);
    }
  }

  lemma {:induction false} StaysSent(limits: Limits, s: State, steps: seq<Step>, a: nat)
    requires Possible(limits, s, steps) && Unclosed(limits, s, steps, a) && a in s.sent
    ensures a in After(limits, s, steps).sent
    decreases |steps|
  {
    hide PollFrom;
    if steps != [] {
      StaysSent(limits, Next(limits, s, steps[0]), steps[1..], a);
    }
  }

  lemma {:induction false} RunConcat(limits: Limits, s: State, a: seq<Step>, b: seq<Step>)
    requires Possible(limits, s, a) && Possible(limits, After(limits, s, a), b)
    ensures Possible(limits, s, a + b) && After(limits, s, a + b) == After(limits, After(limits, s, a), b)
    decreases |a|
  {
    hide Enabled, Next;
    if a == [] {
      assert a + b == b;
    } else {
      assert (a + b)[1..] == a[1..] + b && (a + b)[0] == a[0];
      RunConcat(limits, Next(limits, s, a[0]), a[1..], b);
    }
  }

  /** Once its accept request is sent, an assignment has an entry that recovery looks at, at every later point of every
      run, crashes included, until its completion is acknowledged or recovery closes it. */
  lemma {:induction false} AcceptedKeepsEntry(limits: Limits, before: seq<Step>, ask: Step, after: seq<Step>, a: nat)
    requires Possible(limits, INITIAL, before) && Enabled(After(limits, INITIAL, before), ask)
    requires Asks(After(limits, INITIAL, before), ask, a)
    requires Possible(limits, Next(limits, After(limits, INITIAL, before), ask), after)
    requires Unacknowledged(limits, INITIAL, before, a)
    requires var s1 := Next(limits, After(limits, INITIAL, before), ask);
      Unacknowledged(limits, s1, after, a) && Unclosed(limits, s1, after, a)
    ensures var s := After(limits, Next(limits, After(limits, INITIAL, before), ask), after);
      a in s.journal && s.journal[a].stage != Completed
  {
    hide Possible, After, Unacknowledged, Unclosed, WithinLimits, SlotsOk;
    InitialSafe(limits);
    RunSafe(limits, INITIAL, before);
    var s0 := After(limits, INITIAL, before);
    StaysUnacknowledged(limits, INITIAL, before, a);
    NextSafe(limits, s0, ask);
    var s1 := Next(limits, s0, ask);
    RunSafe(limits, s1, after);
    StaysUnacknowledged(limits, s1, after, a);
    StaysSent(limits, s1, after, a);
  }

  // ----- Entries of single slots -----

  /** The slot's own cleanup can still take the entry away. */
  predicate StillCleaning(point: Point) {
    point.NoteCompleted? || point == Remove(false)
  }

  /** The slot has written its entry and not yet been acknowledged. */
  predicate NeedsEntry(point: Point) {
    InFlight(point) || point == Write(Landed)
  }

  /** No live slot works on an assignment that an earlier slot is still cleaning up. */
  ghost predicate NoneRestarted(s: State) {
    forall i, j :: 0 <= i < |s.slots| && 0 <= j < |s.slots| && IsActive(s.slots[i]) && StillCleaning(s.slots[j].point) ==>
      s.slots[i].assignment != s.slots[j].assignment
  }

  ghost predicate LiveSlotsHaveEntries(s: State) {
    forall i :: 0 <= i < |s.slots| && NeedsEntry(s.slots[i].point) ==> s.slots[i].assignment in s.journal
  }

  /** The poll starts no slot for an assignment that is still being cleaned up. */
  ghost predicate WaitsForCleanup(limits: Limits, s: State, step: Step)
    requires Enabled(s, step)
  {
    step.Poll? ==> NoneRestarted(Next(limits, s, step))
  }

  lemma PollKeepsEntries(limits: Limits, s: State, available: seq<Assignment>)
    requires LiveSlotsHaveEntries(s) && s.mode.Up?
    ensures LiveSlotsHaveEntries(Next(limits, s, Poll(available)))
  {
    hide PollFrom;
    PollAppends(limits, s.slots, available);
    var s' := Next(limits, s, Poll(available));
    forall i | 0 <= i < |s'.slots| && NeedsEntry(s'.slots[i].point) ensures s'.slots[i].assignment in s'.journal {
      if i < |s.slots| {
        assert s'.slots[i] == s'.slots[..|s.slots|][i];
      }
    }
  }

  /** A step of one slot that neither needs more nor cleans more than before. */
  lemma MoveKeepsEntries(s: State, t: State, i: nat)
    requires NoneRestarted(s) && LiveSlotsHaveEntries(s) && i < |s.slots| == |t.slots|
    requires t.slots == s.slots[i := t.slots[i]] && t.slots[i].assignment == s.slots[i].assignment
    requires IsActive(t.slots[i]) ==> IsActive(s.slots[i])
    requires StillCleaning(t.slots[i].point) ==> StillCleaning(s.slots[i].point)
    requires NeedsEntry(t.slots[i].point) ==> NeedsEntry(s.slots[i].point) || t.slots[i].assignment in t.journal
    requires forall k :: 0 <= k < |s.slots| && IsActive(s.slots[k]) && s.slots[k].assignment in s.journal ==>
               s.slots[k].assignment in t.journal
    requires forall k :: 0 <= k < |s.slots| && NeedsEntry(s.slots[k].point) ==> IsActive(s.slots[k])
    ensures NoneRestarted(t) && LiveSlotsHaveEntries(t)
  {
    hide StillCleaning, NeedsEntry, IsActive;
    forall k | 0 <= k < |t.slots| && NeedsEntry(t.slots[k].point) ensures t.slots[k].assignment in t.journal {
      assert k != i ==> t.slots[k] == s.slots[k];
    }
    forall k, l | 0 <= k < |t.slots| && 0 <= l < |t.slots| && IsActive(t.slots[k]) && StillCleaning(t.slots[l].point)
      ensures t.slots[k].assignment != t.slots[l].assignment
    {
      assert IsActive(s.slots[k]) && StillCleaning(s.slots[l].point);
    }
  }

  lemma NeedyAreActive(s: State)
    requires SlotsOk(s)
    ensures forall k :: 0 <= k < |s.slots| && NeedsEntry(s.slots[k].point) ==> IsActive(s.slots[k])
  {
    forall k | 0 <= k < |s.slots| && NeedsEntry(s.slots[k].point) ensures IsActive(s.slots[k]) {
      assert SlotOk(s, s.slots[k]);
    }
  }

  lemma LandKeepsEntries(limits: Limits, s: State, i: nat)
    requires Safe(limits, s) && Enabled(s, Land(i)) && NoneRestarted(s) && LiveSlotsHaveEntries(s)
    ensures NoneRestarted(Next(limits, s, Land(i))) && LiveSlotsHaveEntries(Next(limits, s, Land(i)))
  {
    hide WriteAhead, WithinLimits, LiveSlotsHaveEntries;
    NeedyAreActive(s);
    assert SlotOk(s, s.slots[i]);
    MoveKeepsEntries(s, Next(limits, s, Land(i)), i);
  }

  /** The acknowledged slot was the only active one on its assignment, so its cleanup concerns no other. */
  lemma AcknowledgedAlone(limits: Limits, s: State, i: nat)
    requires Safe(limits, s) && Enabled(s, Resume(i)) && s.slots[i].point.Complete?
    requires NoneRestarted(s) && LiveSlotsHaveEntries(s)
    ensures NoneRestarted(Next(limits, s, Resume(i))) && LiveSlotsHaveEntries(Next(limits, s, Resume(i)))
  {
    hide WriteAhead, ActiveSlots, ClassCount;
    assert SlotOk(s, s.slots[i]) && UniqueWork(s.slots);
  }

  lemma ResumeKeepsEntries(limits: Limits, s: State, i: nat)
    requires Safe(limits, s) && Enabled(s, Resume(i)) && NoneRestarted(s) && LiveSlotsHaveEntries(s)
    ensures NoneRestarted(Next(limits, s, Resume(i))) && LiveSlotsHaveEntries(Next(limits, s, Resume(i)))
  {
    hide WriteAhead, WithinLimits, LiveSlotsHaveEntries;
    if s.slots[i].point.Complete? {
      AcknowledgedAlone(limits, s, i);
    } else {
      NeedyAreActive(s);
      assert SlotOk(s, s.slots[i]);
      MoveKeepsEntries(s, Next(limits, s, Resume(i)), i);
    }
  }

  lemma OtherMoveKeepsEntries(limits: Limits, s: State, step: Step)
    requires Safe(limits, s) && Enabled(s, step) && NoneRestarted(s) && LiveSlotsHaveEntries(s)
    requires step.Fetch? || step.Merge? || step.Hook? || step.Fail?
    ensures NoneRestarted(Next(limits, s, step)) && LiveSlotsHaveEntries(Next(limits, s, step))
  {
    hide WriteAhead, WithinLimits, LiveSlotsHaveEntries;
    NeedyAreActive(s);
    assert SlotOk(s, s.slots[step.slot]);
    MoveKeepsEntries(s, Next(limits, s, step), step.slot);
  }

  lemma NextKeepsEntries(limits: Limits, s: State, step: Step)
    requires Safe(limits, s) && Enabled(s, step) && NoneRestarted(s) && LiveSlotsHaveEntries(s)
    requires WaitsForCleanup(limits, s, step)
    ensures NoneRestarted(Next(limits, s, step)) && LiveSlotsHaveEntries(Next(limits, s, step))
  {
    hide WriteAhead, WithinLimits, SlotsOk, PollFrom, RecoveryDecision, CanLand, CanFetch, CanMerge, CanResume;
    match step
    case Poll(available) => PollKeepsEntries(limits, s, available);
    case Land(i) => LandKeepsEntries(limits, s, i);
    case Resume(i) => ResumeKeepsEntries(limits, s, i);
    case Fetch(_) => OtherMoveKeepsEntries(limits, s, step);
    case Merge(_) => OtherMoveKeepsEntries(limits, s, step);
    case Hook(_, _) => OtherMoveKeepsEntries(limits, s, step);
    case Fail(_) => OtherMoveKeepsEntries(limits, s, step);
    case _ =>
  }

  ghost predicate AlwaysWaits(limits: Limits, s: State, steps: seq<Step>)
    requires Possible(limits, s, steps)
    decreases |steps|
  {
    steps != [] ==> WaitsForCleanup(limits, s, steps[0]) && AlwaysWaits(limits, Next(limits, s, steps[0]), steps[1..])
  }

  /** As long as no poll restarts an assignment that is still being cleaned up, every live slot finds its own entry. */
  lemma {:induction false} LiveSlotsKeepEntries(limits: Limits, s: State, steps: seq<Step>)
    requires Safe(limits, s) && NoneRestarted(s) && LiveSlotsHaveEntries(s)
    requires Possible(limits, s, steps) && AlwaysWaits(limits, s, steps)
    ensures NoneRestarted(After(limits, s, steps)) && LiveSlotsHaveEntries(After(limits, s, steps))
    decreases |steps|
  {
    hide Safe, Next, Enabled, WaitsForCleanup, NoneRestarted, LiveSlotsHaveEntries;
    if steps != [] {
      NextSafe(limits, s, steps[0]);
      NextKeepsEntries(limits, s, steps[0]);
      LiveSlotsKeepEntries(limits, Next(limits, s, steps[0]), steps[1..]);
    }
  }

  // ----- Write-ahead for every single acceptance -----

  /** The acceptances still open: the accept request has been sent, and since then neither the completion been acknowledged
      nor the entry closed. */
  function OpenNext(s: State, step: Step, open: set<nat>): set<nat> {
    if step.Resume? && step.slot < |s.slots| && s.slots[step.slot].point.Write? then open + {s.slots[step.slot].assignment}
    else if step.Resume? && step.slot < |s.slots| && s.slots[step.slot].point.Complete? then
      open - {s.slots[step.slot].assignment}
    else if step.Recover? && s.mode.Recovering? && s.mode.todo != [] && ClosesWith(s.mode.todo[0].1, step.finding) then
      open - {s.mode.todo[0].0}
    else open
  }

  ghost function OpenAfter(limits: Limits, s: State, steps: seq<Step>, open: set<nat>): set<nat>
    requires Possible(limits, s, steps)
    decreases |steps|
  {
    if steps == [] then open else OpenAfter(limits, Next(limits, s, steps[0]), steps[1..], OpenNext(s, steps[0], open))
  }

  predicate Unfinished(journal: map<nat, Entry>, a: nat) {
    a in journal && journal[a].stage != Completed
  }

  /** Open acceptances have entries that recovery looks at, and so have the slots that are about to accept; no cleanup is
      under way for an open one. */
  ghost predicate OpenKept(s: State, open: set<nat>) {
    && (forall a <- open :: Unfinished(s.journal, a))
    && (forall i :: 0 <= i < |s.slots| && NeedsEntry(s.slots[i].point) ==> Unfinished(s.journal, s.slots[i].assignment))
    && (forall j :: 0 <= j < |s.slots| && StillCleaning(s.slots[j].point) ==> s.slots[j].assignment !in open)
  }

  lemma OpenKeptLive(s: State, open: set<nat>)
    requires OpenKept(s, open)
    ensures LiveSlotsHaveEntries(s)
  {
  }

  lemma LandKeepsOpen(limits: Limits, s: State, i: nat, open: set<nat>)
    requires Safe(limits, s) && Enabled(s, Land(i)) && NoneRestarted(s) && OpenKept(s, open)
    ensures OpenKept(Next(limits, s, Land(i)), open)
  {
    hide WithinLimits, WriteAhead, ModeOk;
    var s' := Next(limits, s, Land(i));
    assert SlotOk(s, s.slots[i]);
    NeedyAreActive(s);
    forall k | 0 <= k < |s'.slots| && NeedsEntry(s'.slots[k].point) ensures Unfinished(s'.journal, s'.slots[k].assignment) {
      if k != i {
        assert s'.slots[k] == s.slots[k] && IsActive(s.slots[k]);
      }
    }
  }

  lemma ResumeKeepsOpen(limits: Limits, s: State, i: nat, open: set<nat>)
    requires Safe(limits, s) && Enabled(s, Resume(i)) && NoneRestarted(s) && OpenKept(s, open)
    ensures OpenKept(Next(limits, s, Resume(i)), OpenNext(s, Resume(i), open))
  {
    hide ActiveSlots, ClassCount, WriteAhead, ModeOk;
    var s' := Next(limits, s, Resume(i));
    assert SlotOk(s, s.slots[i]) && UniqueWork(s.slots);
  }

  lemma MoveKeepsOpen(s: State, t: State, i: nat, open: set<nat>)
    requires OpenKept(s, open) && i < |s.slots| == |t.slots| && t.journal == s.journal
    requires t.slots == s.slots[i := t.slots[i]] && t.slots[i].assignment == s.slots[i].assignment
    requires NeedsEntry(t.slots[i].point) ==> NeedsEntry(s.slots[i].point)
    requires StillCleaning(t.slots[i].point) ==> StillCleaning(s.slots[i].point)
    ensures OpenKept(t, open)
  {
    hide NeedsEntry, StillCleaning, Unfinished;
    forall k | 0 <= k < |t.slots|
      ensures NeedsEntry(t.slots[k].point) ==> Unfinished(t.journal, t.slots[k].assignment)
      ensures StillCleaning(t.slots[k].point) ==> t.slots[k].assignment !in open
    {
      assert k != i ==> t.slots[k] == s.slots[k];
    }
  }

  lemma OtherMoveKeepsOpen(limits: Limits, s: State, step: Step, open: set<nat>)
    requires Safe(limits, s) && Enabled(s, step) && OpenKept(s, open)
    requires step.Fetch? || step.Merge? || step.Hook? || step.Fail?
    ensures OpenKept(Next(limits, s, step), open)
  {
    hide WithinLimits, WriteAhead, ModeOk, MergedEntry, OpenKept;
    assert SlotOk(s, s.slots[step.slot]);
    MoveKeepsOpen(s, Next(limits, s, step), step.slot, open);
  }

  lemma PollKeepsOpen(limits: Limits, s: State, available: seq<Assignment>, open: set<nat>)
    requires s.mode.Up? && OpenKept(s, open)
    ensures OpenKept(Next(limits, s, Poll(available)), open)
  {
    hide PollFrom;
    PollAppends(limits, s.slots, available);
    var s' := Next(limits, s, Poll(available));
    forall i | 0 <= i < |s'.slots|
      ensures NeedsEntry(s'.slots[i].point) ==> Unfinished(s'.journal, s'.slots[i].assignment)
      ensures StillCleaning(s'.slots[i].point) ==> s'.slots[i].assignment !in open
    {
      if i < |s.slots| {
        assert s'.slots[i] == s'.slots[..|s.slots|][i];
      }
    }
  }

  lemma RecoverKeepsOpen(limits: Limits, s: State, f: Finding, open: set<nat>)
    requires Safe(limits, s) && Enabled(s, Recover(f)) && OpenKept(s, open)
    ensures OpenKept(Next(limits, s, Recover(f)), OpenNext(s, Recover(f), open))
  {
    hide RecoveryDecision, WithinLimits, WriteAhead;
  }

  lemma NextKeepsOpen(limits: Limits, s: State, step: Step, open: set<nat>)
    requires Safe(limits, s) && Enabled(s, step) && NoneRestarted(s) && OpenKept(s, open) && WaitsForCleanup(limits, s, step)
    ensures NoneRestarted(Next(limits, s, step)) && OpenKept(Next(limits, s, step), OpenNext(s, step, open))
  {
    hide WriteAhead, WithinLimits, SlotsOk, PollFrom, RecoveryDecision, CanLand, CanFetch, CanMerge, CanResume, MergedEntry,
      WaitsForCleanup;
    OpenKeptLive(s, open);
    NextKeepsEntries(limits, s, step);
    match step
    case Poll(available) => PollKeepsOpen(limits, s, available, open);
    case Land(i) => LandKeepsOpen(limits, s, i, open);
    case Resume(i) => ResumeKeepsOpen(limits, s, i, open);
    case Fetch(_) => OtherMoveKeepsOpen(limits, s, step, open);
    case Merge(_) => OtherMoveKeepsOpen(limits, s, step, open);
    case Hook(_, _) => OtherMoveKeepsOpen(limits, s, step, open);
    case Fail(_) => OtherMoveKeepsOpen(limits, s, step, open);
    case Recover(f) => RecoverKeepsOpen(limits, s, f, open);
    case _ =>
  }

  lemma {:induction false} RunKeepsOpen(limits: Limits, s: State, steps: seq<Step>, open: set<nat>)
    requires Safe(limits, s) && NoneRestarted(s) && OpenKept(s, open)
    requires Possible(limits, s, steps) && AlwaysWaits(limits, s, steps)
    ensures OpenKept(After(limits, s, steps), OpenAfter(limits, s, steps, open))
    decreases |steps|
  {
    hide Safe, Next, Enabled, WaitsForCleanup, NoneRestarted, OpenKept, OpenNext;
    if steps != [] {
      NextSafe(limits, s, steps[0]);
      NextKeepsOpen(limits, s, steps[0], open);
      RunKeepsOpen(limits, Next(limits, s, steps[0]), steps[1..], OpenNext(s, steps[0], open));
    }
  }

  /** In every run in which no poll restarts an assignment that is still being cleaned up: every acceptance, also one after an
      earlier completion of the same assignment, has an entry that recovery looks at, failed slots and crashes included, until
      its own completion is acknowledged or recovery closes it. */
  lemma {:induction false} OpenAcceptancesKeepEntries(limits: Limits, steps: seq<Step>, a: nat)
    requires Possible(limits, INITIAL, steps) && AlwaysWaits(limits, INITIAL, steps)
    requires a in OpenAfter(limits, INITIAL, steps, {})
    ensures Unfinished(After(limits, INITIAL, steps).journal, a)
  {
    hide Possible, After, OpenAfter, AlwaysWaits, WithinLimits;
    InitialSafe(limits);
    RunKeepsOpen(limits, INITIAL, steps, {});
  }

  ghost predicate Polls(steps: seq<Step>) {
    exists k :: 0 <= k < |steps| && steps[k].Poll?
  }

  lemma {:induction false} NoPollsWait(limits: Limits, s: State, steps: seq<Step>)
    requires Possible(limits, s, steps) && !Polls(steps)
    ensures AlwaysWaits(limits, s, steps)
    decreases |steps|
  {
    hide Next, Enabled;
    if steps != [] {
      assert !steps[0].Poll?;
      forall k | 0 <= k < |steps[1..]| ensures !steps[1..][k].Poll? {
        assert steps[1..][k] == steps[k + 1];
      }
      NoPollsWait(limits, Next(limits, s, steps[0]), steps[1..]);
    }
  }

  lemma OneMoreStep(limits: Limits, s: State, steps: seq<Step>, step: Step)
    requires Possible(limits, s, steps) && Enabled(After(limits, s, steps), step)
    ensures Possible(limits, s, steps + [step])
    ensures After(limits, s, steps + [step]) == Next(limits, After(limits, s, steps), step)
  {
    hide Enabled, Next;
    var t := After(limits, s, steps);
    assert [step][1..] == [];
    assert Possible(limits, Next(limits, t, step), []);
    RunConcat(limits, s, steps, [step]);
  }

  function StepsToRemoval(point: Point): nat {
    if point == NoteCompleted(Requested) then 4
    else if point.NoteCompleted? && point.phase.Fetched? then 3
    else if point.NoteCompleted? && point.phase.Merged? then 2
    else if point.NoteCompleted? then 1
    else 0
  }

  /** The next step of the cleanup of slot `j`. */
  function CleanupStep(point: Point, j: nat): Step {
    match StepsToRemoval(point)
    case 4 => Fetch(j)
    case 3 => Merge(j)
    case 1 => Resume(j)
    case _ => Land(j)
  }

  lemma CleanupMoves(limits: Limits, s: State, i: nat, j: nat)
    requires i < |s.slots| && j < |s.slots| && i != j && StillCleaning(s.slots[j].point)
    requires s.slots[j].assignment in s.journal
    ensures var step := CleanupStep(s.slots[j].point, j);
      && Enabled(s, step)
      && var t := Next(limits, s, step);
         && |t.slots| == |s.slots| && t.slots[i] == s.slots[i] && t.slots[j].assignment == s.slots[j].assignment
         && if s.slots[j].point == Remove(false) then s.slots[j].assignment !in t.journal
            else
              && StillCleaning(t.slots[j].point) && StepsToRemoval(t.slots[j].point) < StepsToRemoval(s.slots[j].point)
              && s.slots[j].assignment in t.journal
              && (StepsToRemoval(s.slots[j].point) == 0 ==> t.slots[j].point == Remove(false))
  {
    hide PollFrom;
  }

  lemma FirstStep(limits: Limits, s: State, step: Step, rest: seq<Step>)
    requires Enabled(s, step) && Possible(limits, Next(limits, s, step), rest) && !step.Poll? && !Polls(rest)
    ensures Possible(limits, s, [step] + rest) && !Polls([step] + rest)
    ensures After(limits, s, [step] + rest) == After(limits, Next(limits, s, step), rest)
  {
    hide Enabled, Next;
    assert ([step] + rest)[1..] == rest;
  }

  /** Slot `j` is about to remove the entry that slot `i` needs: after a few more steps it is gone. */
  lemma {:induction false} CleanupTakesEntry(limits: Limits, s: State, i: nat, j: nat) returns (steps: seq<Step>)
    requires i < |s.slots| && j < |s.slots| && i != j && NeedsEntry(s.slots[i].point)
    requires StillCleaning(s.slots[j].point) && s.slots[i].assignment == s.slots[j].assignment
    ensures Possible(limits, s, steps) && !Polls(steps)
    ensures !LiveSlotsHaveEntries(After(limits, s, steps))
    decreases StepsToRemoval(s.slots[j].point)
  {
    hide Enabled, Next, CleanupStep, NeedsEntry, StepsToRemoval;
    if s.slots[i].assignment !in s.journal {
      steps := [];
    } else {
      var step := CleanupStep(s.slots[j].point, j);
      CleanupMoves(limits, s, i, j);
      var t := Next(limits, s, step);
      var rest: seq<Step> := [];
      if s.slots[j].point != Remove(false) {
        rest := CleanupTakesEntry(limits, t, i, j);
      }
      CleanupStepIsNoPoll(s.slots[j].point, j);
      FirstStep(limits, s, step, rest);
      steps := [step] + rest;
    }
  }

  lemma CleanupStepIsNoPoll(point: Point, j: nat)
    ensures !CleanupStep(point, j).Poll?
  {
  }

  /** A live slot whose assignment is still being cleaned up has a continuation in which it works without an entry. */
  lemma RestartLosesEntry(limits: Limits, s: State, i: nat, j: nat) returns (steps: seq<Step>)
    requires Safe(limits, s) && i < |s.slots| && j < |s.slots| && IsActive(s.slots[i])
    requires StillCleaning(s.slots[j].point) && s.slots[i].assignment == s.slots[j].assignment
    ensures Possible(limits, s, steps) && !Polls(steps)
    ensures !LiveSlotsHaveEntries(After(limits, s, steps))
  {
    hide PollFrom, LiveSlotsHaveEntries;
    assert SlotOk(s, s.slots[i]) && SlotOk(s, s.slots[j]);
    if s.slots[i].point.Write? && s.slots[i].point != Write(Landed) {
      var first := WriteLands(limits, s, i, j);
      var rest := CleanupTakesEntry(limits, After(limits, s, first), i, j);
      RunConcat(limits, s, first, rest);
      steps := first + rest;
    } else {
      steps := CleanupTakesEntry(limits, s, i, j);
    }
  }

  /** The first write of slot `i` takes effect; slot `j` stands still. */
  lemma WriteLands(limits: Limits, s: State, i: nat, j: nat) returns (steps: seq<Step>)
    requires i < |s.slots| && j < |s.slots| && i != j && s.slots[i].point.Write? && s.slots[i].point != Write(Landed)
    requires !s.slots[i].point.phase.Fetched?
    ensures Possible(limits, s, steps) && !Polls(steps)
    ensures var t := After(limits, s, steps);
      && |t.slots| == |s.slots| && t.slots[j] == s.slots[j]
      && t.slots[i].point == Write(Landed) && t.slots[i].assignment == s.slots[i].assignment
  {
    hide PollFrom;
    if s.slots[i].point.phase.Requested? {
      var t := Next(limits, s, Merge(i));
      FirstStep(limits, t, Land(i), []);
      FirstStep(limits, s, Merge(i), [Land(i)] + []);
      steps := [Merge(i)] + ([Land(i)] + []);
    } else {
      FirstStep(limits, s, Land(i), []);
      steps := [Land(i)] + [];
    }
  }

  /** From a state in which all live slots have their entries, they keep them whatever happens short of another poll if
      and only if none of them was restarted too early. */
  lemma EntriesStayIff(limits: Limits, s: State)
    requires Safe(limits, s) && LiveSlotsHaveEntries(s)
    ensures NoneRestarted(s) <==>
      forall steps :: Possible(limits, s, steps) && !Polls(steps) ==> LiveSlotsHaveEntries(After(limits, s, steps))
  {
    hide Safe, LiveSlotsHaveEntries, Possible, After;
    if NoneRestarted(s) {
      forall steps | Possible(limits, s, steps) && !Polls(steps) ensures LiveSlotsHaveEntries(After(limits, s, steps)) {
        NoPollsWait(limits, s, steps);
        LiveSlotsKeepEntries(limits, s, steps);
      }
    } else {
      var i, j :| 0 <= i < |s.slots| && 0 <= j < |s.slots| && IsActive(s.slots[i]) && StillCleaning(s.slots[j].point) &&
        s.slots[i].assignment == s.slots[j].assignment;
      var steps := RestartLosesEntry(limits, s, i, j);
    }
  }

  // ----- A run that restarts too early -----

  /** A coordinator whose only slot has assignment `a`. */
  function Alone(a: Assignment, status: Status, point: Point, stage: Stage): State {
    State(Up, [Slot(a.id, a.task, ClassOf(a), status, point, true)], map[a.id := Entry(a.task, stage, None)], {a.id},
          if StillCleaning(point) then {a.id} else {})
  }

  lemma ResumeAlone(limits: Limits, a: Assignment, status: Status, point: Point, stage: Stage, steps: seq<Step>)
    requires Possible(limits, INITIAL, steps) && After(limits, INITIAL, steps) == Alone(a, status, point, stage)
    requires !point.Write? && !point.Remove? && !point.Ended? && !point.NoteCompleted?
    requires IsUpdate(point) ==> point.phase.Landed?
    ensures var next := Resumed(Alone(a, status, point, stage).slots[0]);
      && Possible(limits, INITIAL, steps + [Resume(0)])
      && After(limits, INITIAL, steps + [Resume(0)]) == Alone(a, next.status, next.point, stage)
  {
    OneMoreStep(limits, INITIAL, steps, Resume(0));
    var s := Alone(a, status, point, stage);
    assert s.slots[0 := Resumed(s.slots[0])] == [Resumed(s.slots[0])];
  }

  lemma FetchAlone(limits: Limits, a: Assignment, status: Status, point: Point, stage: Stage)
    requires IsUpdate(point) && point.phase.Requested? && !point.NoteCompleted?
    ensures var s := Alone(a, status, point, stage);
      Enabled(s, Fetch(0)) &&
      Next(limits, s, Fetch(0)) == Alone(a, status, WithPhase(point, Fetched(Entry(a.task, stage, None))), stage)
  {
    var s := Alone(a, status, point, stage);
    assert s.slots[0 := FetchedSlot(s.journal, s.slots[0])] == [FetchedSlot(s.journal, s.slots[0])];
  }

  lemma MergeAlone(limits: Limits, a: Assignment, status: Status, point: Point, stage: Stage)
    requires IsUpdate(point) && point.phase == Fetched(Entry(a.task, stage, None)) && !point.NoteCompleted?
    ensures var s := Alone(a, status, point, stage);
      Enabled(s, Merge(0)) &&
      Next(limits, s, Merge(0)) == Alone(a, status, WithPhase(point, Merged(Entry(a.task, NotedStage(point), None))), stage)
  {
    var s := Alone(a, status, point, stage);
    assert s.slots[0 := MergedSlot(s.journal, s.slots[0])] == [MergedSlot(s.journal, s.slots[0])];
  }

  lemma LandAlone(limits: Limits, a: Assignment, status: Status, point: Point, stage: Stage)
    requires IsUpdate(point) && point.phase == Merged(Entry(a.task, NotedStage(point), None)) && !point.NoteCompleted?
    ensures var s := Alone(a, status, point, stage);
      Enabled(s, Land(0)) && Next(limits, s, Land(0)) == Alone(a, status, WithPhase(point, Landed), NotedStage(point))
  {
    var s := Alone(a, status, point, stage);
    assert s.slots[0 := AfterLanding(s.slots[0])] == [AfterLanding(s.slots[0])];
    assert LandedJournal(s.journal, s.slots[0]) == map[a.id := Entry(a.task, NotedStage(point), None)];
  }

  /** The four steps of an update and the code behind it. */
  lemma UpdateAlone(limits: Limits, a: Assignment, status: Status, point: Point, stage: Stage, steps: seq<Step>)
    returns (more: seq<Step>)
    requires Possible(limits, INITIAL, steps) && After(limits, INITIAL, steps) == Alone(a, status, point, stage)
    requires IsUpdate(point) && point.phase.Requested? && !point.NoteCompleted?
    ensures var next := Resumed(Slot(a.id, a.task, ClassOf(a), status, WithPhase(point, Landed), true));
      && Possible(limits, INITIAL, more) && After(limits, INITIAL, more) == Alone(a, next.status, next.point, NotedStage(point))
  {
    hide Alone, Enabled, Next, Possible, After;
    FetchAlone(limits, a, status, point, stage);
    OneMoreStep(limits, INITIAL, steps, Fetch(0));
    var fetched := WithPhase(point, Fetched(Entry(a.task, stage, None)));
    MergeAlone(limits, a, status, fetched, stage);
    OneMoreStep(limits, INITIAL, steps + [Fetch(0)], Merge(0));
    LandAlone(limits, a, status, WithPhase(point, Merged(Entry(a.task, NotedStage(point), None))), stage);
    more := steps + [Fetch(0)] + [Merge(0)];
    OneMoreStep(limits, INITIAL, more, Land(0));
    FirstSlot(a, status, WithPhase(point, Landed), NotedStage(point));
    ResumeAlone(limits, a, status, WithPhase(point, Landed), NotedStage(point), more + [Land(0)]);
    more := more + [Land(0)] + [Resume(0)];
  }

  /** The first poll has started the one slot. */
  lemma StartAlone(limits: Limits, a: Assignment) returns (steps: seq<Step>)
    requires HasCapacity(limits, [], a)
    ensures Possible(limits, INITIAL, steps)
    ensures After(limits, INITIAL, steps) == State(Up, [StartedSlot(a)], map[], {}, {})
  {
    hide HasCapacity;
    assert PollFrom(limits, [], [a]) == [] + [StartedSlot(a)];
    assert Possible(limits, INITIAL, []) && After(limits, INITIAL, []) == INITIAL;
    OneMoreStep(limits, INITIAL, [], Start([]));
    var s1 := [] + [Start([])];
    OneMoreStep(limits, INITIAL, s1, Ready);
    OneMoreStep(limits, INITIAL, s1 + [Ready], Poll([a]));
    steps := s1 + [Ready] + [Poll([a])];
  }

  lemma AcceptAlone(limits: Limits, a: Assignment) returns (steps: seq<Step>)
    requires HasCapacity(limits, [], a)
    ensures Possible(limits, INITIAL, steps) && After(limits, INITIAL, steps) == Alone(a, Accepting, Accept, Accepted)
  {
    hide HasCapacity, Possible, After;
    steps := StartAlone(limits, a);
    var merged := MergedSlot(map[], StartedSlot(a));
    OneMoreStep(limits, INITIAL, steps, Merge(0));
    assert [StartedSlot(a)][0 := merged] == [merged];
    OneMoreStep(limits, INITIAL, steps + [Merge(0)], Land(0));
    assert [merged][0 := AfterLanding(merged)] == [AfterLanding(merged)];
    OneMoreStep(limits, INITIAL, steps + [Merge(0)] + [Land(0)], Resume(0));
    steps := steps + [Merge(0)] + [Land(0)] + [Resume(0)];
    assert After(limits, INITIAL, steps).slots == Alone(a, Accepting, Accept, Accepted).slots;
  }

  lemma ExecuteAlone(limits: Limits, a: Assignment) returns (steps: seq<Step>)
    requires HasCapacity(limits, [], a)
    ensures Possible(limits, INITIAL, steps) && After(limits, INITIAL, steps) == Alone(a, Running, Execute, ContextHydrated)
  {
    hide Alone, Possible, After, HasCapacity;
    steps := AcceptAlone(limits, a);
    FirstSlot(a, Accepting, Accept, Accepted);
    ResumeAlone(limits, a, Accepting, Accept, Accepted, steps);
    FirstSlot(a, Accepting, Claim, Accepted);
    ResumeAlone(limits, a, Accepting, Claim, Accepted, steps + [Resume(0)]);
    steps := UpdateAlone(limits, a, Accepting, NoteClaimed(Requested), Accepted, steps + [Resume(0)] + [Resume(0)]);
    steps := UpdateAlone(limits, a, Running, NoteHydrated(Requested), Claimed, steps);
  }

  lemma VerifyAlone(limits: Limits, a: Assignment) returns (steps: seq<Step>)
    requires HasCapacity(limits, [], a)
    ensures Possible(limits, INITIAL, steps) && After(limits, INITIAL, steps) == Alone(a, Running, CompleteTask, Verifying)
  {
    hide Alone, Possible, After, HasCapacity;
    steps := ExecuteAlone(limits, a);
    FirstSlot(a, Running, Execute, ContextHydrated);
    ResumeAlone(limits, a, Running, Execute, ContextHydrated, steps);
    FirstSlot(a, Running, Drain, ContextHydrated);
    ResumeAlone(limits, a, Running, Drain, ContextHydrated, steps + [Resume(0)]);
    FirstSlot(a, Running, PostEvidence, ContextHydrated);
    ResumeAlone(limits, a, Running, PostEvidence, ContextHydrated, steps + [Resume(0)] + [Resume(0)]);
    steps := steps + [Resume(0)] + [Resume(0)] + [Resume(0)];
    FirstSlot(a, Running, PostChangeSet, ContextHydrated);
    ResumeAlone(limits, a, Running, PostChangeSet, ContextHydrated, steps);
    steps := UpdateAlone(limits, a, Running, NoteVerifying(Requested), ContextHydrated, steps + [Resume(0)]);
  }

  /** From the start of the coordinator, an assignment can be worked on and acknowledged. */
  lemma AcknowledgeAlone(limits: Limits, a: Assignment) returns (steps: seq<Step>)
    requires HasCapacity(limits, [], a)
    ensures Possible(limits, INITIAL, steps)
    ensures After(limits, INITIAL, steps) == Alone(a, Idle, NoteCompleted(Requested), Verifying)
  {
    hide Alone, Possible, After, HasCapacity;
    steps := VerifyAlone(limits, a);
    FirstSlot(a, Running, CompleteTask, Verifying);
    ResumeAlone(limits, a, Running, CompleteTask, Verifying, steps);
    FirstSlot(a, Running, Complete, Verifying);
    ResumeAlone(limits, a, Running, Complete, Verifying, steps + [Resume(0)]);
    steps := steps + [Resume(0)] + [Resume(0)];
  }

  lemma FirstSlot(a: Assignment, status: Status, point: Point, stage: Stage)
    ensures |Alone(a, status, point, stage).slots| == 1
    ensures Alone(a, status, point, stage).slots[0] == Slot(a.id, a.task, ClassOf(a), status, point, true)
  {
  }

  /** Such a restart happens in a run from the very start, whenever there is room for one assignment, if the backend
      offers it again right after acknowledging it; and then its slot works without an entry. */
  lemma {:induction false} ReofferLosesEntry(limits: Limits, a: Assignment) returns (steps: seq<Step>)
    requires HasCapacity(limits, [], a)
    ensures Possible(limits, INITIAL, steps) && !LiveSlotsHaveEntries(After(limits, INITIAL, steps))
  {
    hide Possible, After, LiveSlotsHaveEntries;
    var first := AcknowledgeAlone(limits, a);
    var s := After(limits, INITIAL, first);
    OneMoreStep(limits, INITIAL, first, Poll([a]));
    PollAlone(limits, a);
    InitialSafe(limits);
    RunSafe(limits, INITIAL, first + [Poll([a])]);
    var rest := RestartLosesEntry(limits, After(limits, INITIAL, first + [Poll([a])]), 1, 0);
    RunConcat(limits, INITIAL, first + [Poll([a])], rest);
    steps := first + [Poll([a])] + rest;
  }

  lemma PollAlone(limits: Limits, a: Assignment)
    requires HasCapacity(limits, [], a)
    ensures var s := Alone(a, Idle, NoteCompleted(Requested), Verifying);
      PollFrom(limits, s.slots, [a]) == s.slots + [StartedSlot(a)]
  {
    var s := Alone(a, Idle, NoteCompleted(Requested), Verifying);
    assert s.slots == [] + [s.slots[0]];
    Appended([], s.slots[0], ClassOf(a));
    assert HasCapacity(limits, s.slots, a);
    assert [a][1..] == [];
  }

  // ----- The recovery as a part of a run -----

  function Recovers(findings: seq<Finding>): seq<Step> {
    if findings == [] then [] else Recovers(findings[..|findings| - 1]) + [Recover(findings[|findings| - 1])]
  }

  /** The start of a coordinator: all entries are recovered, one after the other, before the first poll. */
  function RecoverySteps(entries: seq<(nat, Stage)>, findings: seq<Finding>): seq<Step> {
    [Start(entries)] + Recovers(findings) + [Ready]
  }

  lemma StartOnly(limits: Limits, s: State, entries: seq<(nat, Stage)>)
    requires s.mode.Down? && ListsUnfinished(s.journal, entries)
    ensures var steps := [Start(entries)] + Recovers([]);
      Possible(limits, s, steps) && After(limits, s, steps) == s.(mode := Recovering(entries))
  {
    hide ListsUnfinished;
    assert [Start(entries)] + Recovers([]) == [] + [Start(entries)];
    assert Possible(limits, s, []) && After(limits, s, []) == s;
    OneMoreStep(limits, s, [], Start(entries));
  }

  /** One turn of the recovery loop. */
  lemma OneMoreRecovered(limits: Limits, s: State, entries: seq<(nat, Stage)>, findings: seq<Finding>, k: nat)
    requires k < |entries| == |findings|
    requires var steps := [Start(entries)] + Recovers(findings[..k]);
      Possible(limits, s, steps) && After(limits, s, steps).mode == Recovering(entries[k..])
    ensures var steps, more := [Start(entries)] + Recovers(findings[..k]), [Start(entries)] + Recovers(findings[..k + 1]);
      && Possible(limits, s, more)
      && After(limits, s, more) == RecoverNext(After(limits, s, steps), findings[k])
      && After(limits, s, more).mode == Recovering(entries[k + 1..])
  {
    hide Possible, After, RecoverEntry, ClosesWith;
    var steps := [Start(entries)] + Recovers(findings[..k]);
    assert findings[..k + 1][..k] == findings[..k];
    assert [Start(entries)] + Recovers(findings[..k + 1]) == steps + [Recover(findings[k])];
    OneMoreStep(limits, s, steps, Recover(findings[k]));
    assert entries[k..][1..] == entries[k + 1..];
  }

  /** The first `n` entries have been recovered: those that are closed are gone, with the duty to keep them, the others are as
      they were but for the decision. */
  ghost predicate GoneThrough(s: State, t: State, entries: seq<(nat, Stage)>, findings: seq<Finding>, n: nat)
    requires n <= |entries| == |findings|
  {
    && (forall id :: id in t.journal <==> id in s.journal && !ClosedAmong(entries, findings, n, id))
    && (forall id :: id in t.sent <==> id in s.sent && !ClosedAmong(entries, findings, n, id))
    && forall id <- t.journal :: t.journal[id].task == s.journal[id].task && t.journal[id].stage == s.journal[id].stage
  }

  lemma NothingGoneThrough(s: State, t: State, entries: seq<(nat, Stage)>, findings: seq<Finding>)
    requires |entries| == |findings| && t.journal == s.journal && t.sent == s.sent
    ensures GoneThrough(s, t, entries, findings, 0)
  {
  }

  lemma SameGoneThrough(s: State, t: State, u: State, entries: seq<(nat, Stage)>, findings: seq<Finding>)
    requires |entries| == |findings| && GoneThrough(s, t, entries, findings, |entries|) && u.journal == t.journal && u.sent == t.sent
    ensures GoneThrough(s, u, entries, findings, |entries|)
  {
  }

  lemma RecoveredStep(s: State, t: State, entries: seq<(nat, Stage)>, findings: seq<Finding>, k: nat)
    requires k < |entries| == |findings| && t.mode == Recovering(entries[k..]) && GoneThrough(s, t, entries, findings, k)
    ensures GoneThrough(s, RecoverNext(t, findings[k]), entries, findings, k + 1)
  {
    hide ClosesWith, ClosedAmong;
    forall id ensures ClosedAmong(entries, findings, k + 1, id) <==>
        (ClosedAmong(entries, findings, k, id) || (id == entries[k].0 && ClosesWith(entries[k].1, findings[k]))) {
      OneMoreClosed(entries, findings, k, id);
    }
  }

  // ----- The class -----

  class WorkerCoordinator {
    const limits: Limits
    var slots: seq<Slot>
    var journal: map<nat, Entry>
    /** The requests sent, with the slots that sent them. */
    var requests: seq<(nat, Request)>
    ghost var mode: Mode
    ghost var sent: set<nat>
    ghost var acked: set<nat>

    /** A process that starts with the journal an earlier one has left, as after a crash. */
    constructor (maxWorkers: nat, overrides: map<string, nat>, journal: map<nat, Entry>, ghost earlier: State)
      requires earlier.journal == journal
      ensures limits == LimitsFor(maxWorkers, overrides) && View() == Next(limits, earlier, Crash)
    {
      limits := LimitsFor(maxWorkers, overrides);
      slots, this.journal, requests := [], journal, [];
      mode, sent, acked := Down, earlier.sent, earlier.acked;
    }

    ghost function View(): State
      reads this
    {
      State(mode, slots, journal, sent, acked)
    }

    /** Starts a slot for every offered assignment there is room for. */
    method PollAssignments(available: seq<Assignment>)
      requires Safe(limits, View()) && Enabled(View(), Poll(available))
      modifies this`slots
      ensures View() == Next(limits, old(View()), Poll(available)) && Safe(limits, View())
    {
      hide HasCapacity, Safe, StartedSlot;
      PollKeepsSafe(limits, View(), available);
      assert available[0..] == available;
      for k := 0 to |available|
        invariant PollFrom(limits, slots, available[k..]) == PollFrom(limits, old(slots), available)
        invariant journal == old(journal)
      {
        assert available[k..][0] == available[k] && available[k..][1..] == available[k + 1..];
        if HasCapacity(limits, slots, available[k]) {
          CreateSlot(available[k]);
        }
      }
    }

    method CreateSlot(a: Assignment)
      modifies this`slots
      ensures slots == old(slots) + [StartedSlot(a)]
    {
      var slot := Slot(a.id, a.task, ClassOf(a), Idle, Write(Requested), false);
      slots := slots + [slot];
      slots := slots[|slots| - 1 := slot.(status := Accepting)];
    }

    /** An update of slot `i` has read its entry. */
    method FetchEntry(i: nat)
      requires Safe(limits, View()) && Enabled(View(), Fetch(i))
      modifies this`slots
      ensures View() == Next(limits, old(View()), Fetch(i)) && Safe(limits, View())
    {
      FetchKeepsSafe(limits, View(), i);
      var existing := journal[slots[i].assignment];
      slots := slots[i := slots[i].(point := WithPhase(slots[i].point, Fetched(existing)))];
    }

    /** A write of slot `i` has read what it merges into. */
    method MergeEntry(i: nat)
      requires Safe(limits, View()) && Enabled(View(), Merge(i))
      modifies this`slots
      ensures View() == Next(limits, old(View()), Merge(i)) && Safe(limits, View())
    {
      hide Safe;
      MergeKeepsSafe(limits, View(), i);
      var slot := slots[i];
      var kept := if slot.assignment in journal then journal[slot.assignment].recovery else None;
      var task, own := slot.task, None;
      if !slot.point.Write? {
        task, own := slot.point.phase.entry.task, slot.point.phase.entry.recovery;
      }
      var merged := Entry(task, NotedStage(slot.point), if own.Some? then own else kept);
      slots := slots[i := slot.(point := WithPhase(slot.point, Merged(merged)))];
    }

    /** A pending write or removal of slot `i` reaches the disk. */
    method LandJournal(i: nat)
      requires Safe(limits, View()) && Enabled(View(), Land(i))
      modifies this`slots, this`journal
      ensures View() == Next(limits, old(View()), Land(i)) && Safe(limits, View())
    {
      hide Safe;
      LandKeepsSafe(limits, View(), i);
      var slot := slots[i];
      if slot.point.Remove? {
        journal := journal - {slot.assignment};
        slot := slot.(point := Remove(true));
      } else {
        journal := journal[slot.assignment := slot.point.phase.entry];
        slot := slot.(point := WithPhase(slot.point, Landed));
      }
      slots := slots[i := slot];
    }

    /** The executor of slot `i` reports a stage. */
    method OnStageChanged(i: nat, stage: Stage)
      requires Safe(limits, View()) && Enabled(View(), Hook(i, stage))
      modifies this`slots
      ensures View() == Next(limits, old(View()), Hook(i, stage)) && Safe(limits, View())
    {
      HookKeepsSafe(limits, View(), i, stage);
      slots := slots[i := slots[i].(point := NoteStage(stage, Requested))];
    }

    /** The stretch of runAssignment behind the await at which the slot is; it ends at the next one. */
    static method ToNextAwait(slot: Slot) returns (next: Slot, request: Option<Request>)
      requires CanResume(slot)
      ensures next == Resumed(slot) && request == Sends(slot)
    {
      next, request := slot, None;
      match slot.point {
        case Write(_) =>
          request := Some(AcceptAssignment);
          next := slot.(point := Accept, asked := true);
        case Accept =>
          request := Some(ClaimTask);
          next := slot.(point := Claim);
        case Claim => next := slot.(point := NoteClaimed(Requested));
        case NoteClaimed(_) =>
          next := slot.(status := Running);
          next := next.(point := NoteHydrated(Requested));
        case NoteHydrated(_) =>
          request := Some(CallExecutor);
          next := slot.(point := Execute);
        case NoteStage(_, _) => next := slot.(point := Execute);
        case Execute => next := slot.(point := Drain);
        case Drain =>
          request := Some(PostToolEvidence);
          next := slot.(point := PostEvidence);
        case PostEvidence =>
          request := Some(SendChangeSet);
          next := slot.(point := PostChangeSet);
        case PostChangeSet => next := slot.(point := NoteVerifying(Requested));
        case NoteVerifying(_) =>
          request := Some(FinishTask);
          next := slot.(point := CompleteTask);
        case CompleteTask =>
          request := Some(CompleteAssignment);
          next := slot.(point := Complete);
        case Complete =>
          next := slot.(status := Idle);
          next := next.(point := NoteCompleted(Requested));
        case NoteCompleted(_) => next := slot.(point := Remove(false));
        case Remove(_) => next := slot.(point := Ended);
        case ReportFailure => next := slot.(point := Ended);
      }
    }

    /** runAssignment of slot `i` continues to its next await. */
    method RunAssignment(i: nat)
      requires Safe(limits, View()) && Enabled(View(), Resume(i))
      modifies this`slots, this`sent, this`acked, this`requests
      ensures View() == Next(limits, old(View()), Resume(i)) && Safe(limits, View())
      ensures requests == old(requests) + ToList(i, Sends(old(slots[i])))
    {
      hide Safe, Resumed, Sends;
      ResumeKeepsSafe(limits, View(), i);
      var slot := slots[i];
      var next, request := ToNextAwait(slot);
      if slot.point.Write? {
        sent := sent + {slot.assignment};
      }
      if slot.point.Complete? {
        acked := acked + {slot.assignment};
      }
      if request.Some? {
        requests := requests + [(i, request.value)];
      }
      slots := slots[i := next];
    }

    /** An await of slot `i` throws: the slot fails, reports it and keeps its entry. */
    method FailRun(i: nat)
      requires Safe(limits, View()) && Enabled(View(), Fail(i))
      modifies this`slots, this`requests
      ensures View() == Next(limits, old(View()), Fail(i)) && Safe(limits, View())
      ensures requests == old(requests) + [(i, FailAssignment)]
    {
      FailKeepsSafe(limits, View(), i);
      requests := requests + [(i, FailAssignment)];
      slots := slots[i := slots[i].(status := Failed, point := ReportFailure)];
    }

    /** Before the first poll: entries are closed or kept with the decision noted, one after the other; an error skips
        the entry. */
    method RecoverUnfinishedExecutions(entries: seq<(nat, Stage)>, findings: seq<Finding>)
      requires Safe(limits, View()) && Enabled(View(), Start(entries)) && |entries| == |findings|
      modifies this`journal, this`mode, this`sent
      ensures var steps := RecoverySteps(entries, findings);
        && Possible(limits, old(View()), steps) && View() == After(limits, old(View()), steps)
        && Safe(limits, View()) && mode == Up
      ensures GoneThrough(old(View()), View(), entries, findings, |entries|)
    {
      hide RecoverEntry, ClosesWith, ListsUnfinished, Possible, After, Safe, GoneThrough;
      ghost var s := View();
      StartOnly(limits, s, entries);
      mode := Recovering(entries);
      assert entries[0..] == entries && findings[..0] == [];
      NothingGoneThrough(s, View(), entries, findings);
      for k := 0 to |entries|
        invariant mode == Recovering(entries[k..])
        invariant var steps := [Start(entries)] + Recovers(findings[..k]);
          Possible(limits, s, steps) && After(limits, s, steps) == View()
        invariant GoneThrough(s, View(), entries, findings, k)
      {
        OneMoreRecovered(limits, s, entries, findings, k);
        ghost var before := View();
        RecoverOne(entries[k].0, entries[k].1, findings[k]);
        mode := Recovering(entries[k + 1..]);
        RecoveredStep(s, before, entries, findings, k);
      }
      assert findings[..|entries|] == findings;
      ghost var steps, last := [Start(entries)] + Recovers(findings), View();
      OneMoreStep(limits, s, steps, Ready);
      RunSafe(limits, s, steps + [Ready]);
      mode := Up;
      SameGoneThrough(s, last, View(), entries, findings);
    }

    /** The body of the loop, for one entry. */
    method RecoverOne(id: nat, stage: Stage, finding: Finding)
      modifies this`journal, this`sent
      ensures journal == RecoverEntry(old(journal), id, stage, finding)
      ensures sent == if ClosesWith(stage, finding) then old(sent) - {id} else old(sent)
    {
      hide RecoveryDecision;
      if finding.Finding? {
        var decision := RecoveryDecision(stage, finding.expired, finding.repository);
        if decision in {Abandoned, Recovered} {
          journal := journal - {id};
          sent := sent - {id};
        } else if id in journal {
          journal := journal[id := journal[id].(recovery := Some(decision))];
        }
      }
    }
  }
}
