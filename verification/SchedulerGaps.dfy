/** What the scheduler does not prevent: two active runs of one schedule when one is started by
    hand, and runs left running by a worker that died. */
module SchedulerGaps {
  import opened Wrappers
  import opened Calendar
  import opened NextRun
  import opened RunStatus
  import opened SchedulerProtocol

  // ---- Two active runs of one schedule ----

  predicate ActiveFor(run: Run, k: ScheduleId) {
    run.schedule == Some(k) && (run.status.Queued? || run.status.Running?)
  }

  ghost predicate HasActive(runs: map<RunId, Run>, k: ScheduleId) {
    exists id :: id in runs && ActiveFor(runs[id], k)
  }

  ghost predicate Overlaps(runs: map<RunId, Run>, k: ScheduleId) {
    exists a, b :: a in runs && b in runs && a != b && ActiveFor(runs[a], k) && ActiveFor(runs[b], k)
  }

  /** A request starts a run of the schedule by hand and leaves it to be retried. */
  ghost predicate CommitsManual(s: State, step: Step, k: ScheduleId) {
    step.RunNowCommit? && step.outcome.Queued? && step.id in s.requests && s.requests[step.id] == k
  }

  /** A cycle publishes the run it enqueued for the schedule. */
  ghost predicate PublishesRun(s: State, step: Step, k: ScheduleId) {
    step.CommitCycle? && step.w in s.workers && HasActive(s.workers[step.w].created, k)
  }

  lemma NoMoreActive(runs: map<RunId, Run>, after: map<RunId, Run>, k: ScheduleId)
    requires !Overlaps(runs, k)
    requires forall id :: id in after && ActiveFor(after[id], k) ==> id in runs && ActiveFor(runs[id], k)
    ensures !Overlaps(after, k)
  {
  }

  lemma OneMoreRun(runs: map<RunId, Run>, id: RunId, run: Run, k: ScheduleId)
    requires !Overlaps(runs, k) && id !in runs
    ensures Overlaps(runs[id := run], k) <==> ActiveFor(run, k) && HasActive(runs, k)
  {
    var after := runs[id := run];
    if ActiveFor(run, k) && HasActive(runs, k) {
      var a :| a in runs && ActiveFor(runs[a], k);
      assert after[a] == runs[a] && after[id] == run;
    }
  }

  lemma MoreRuns(runs: map<RunId, Run>, marked: map<RunId, Run>, created: map<RunId, Run>, k: ScheduleId)
    requires !Overlaps(runs, k) && !Overlaps(created, k) && created.Keys !! runs.Keys && marked.Keys == runs.Keys
    requires forall id :: id in runs ==> (ActiveFor(marked[id], k) <==> ActiveFor(runs[id], k))
    ensures Overlaps(marked + created, k) <==> HasActive(created, k) && HasActive(runs, k)
  {
    var after := marked + created;
    if HasActive(created, k) && HasActive(runs, k) {
      var a :| a in runs && ActiveFor(runs[a], k);
      var b :| b in created && ActiveFor(created[b], k);
      assert ActiveFor(after[a], k) && ActiveFor(after[b], k);
    }
    if Overlaps(after, k) {
      var a, b :| a in after && b in after && a != b && ActiveFor(after[a], k) && ActiveFor(after[b], k);
      assert (a in created) != (b in created);
    }
  }

  lemma CommitOverlap(s: State, w: WorkerId, t: State, k: ScheduleId)
    requires RunsOk(s) && Next(s, CommitCycle(w), t) && !Overlaps(s.runs, k)
    ensures Overlaps(t.runs, k) <==> HasActive(s.workers[w].created, k) && HasActive(s.runs, k)
    ensures Overlaps(t.runs, k) ==> forall id :: id in s.runs && ActiveFor(s.runs[id], k) ==> s.runs[id].trigger.Manual?
  {
    hide MoveAll, Apart, OneCommitted, PhaseOk;
    var worker := s.workers[w];
    assert WorkerOk(s.runs, worker) && NoneCommitted(s.runs, worker);
    MoreRuns(s.runs, MarkRunning(s.runs, worker.claimed), worker.created, k);
  }

  lemma OtherStepsKeepRuns(s: State, step: Step, t: State)
    requires Next(s, step, t) && !step.CommitCycle? && !step.FinishRun? && !step.RunNowCommit?
    ensures t.runs == s.runs
  {
    hide NextRunAt, EditTime, HasActiveRun, ScheduleLocked, Fresh, Due, RunLocked, MoveAll, Claimable;
    hide Enqueued, Claiming;
    hide MarkRunning, Apart;
  }

  lemma ManualOverlap(s: State, step: Step, t: State, k: ScheduleId)
    requires NewIds(s) && Next(s, step, t) && step.RunNowCommit? && !Overlaps(s.runs, k)
    ensures Overlaps(t.runs, k) <==> CommitsManual(s, step, k) && HasActive(s.runs, k)
  {
    hide NextRunAt, EditTime, HasActiveRun, ScheduleLocked, Fresh, Due, RunLocked, MoveAll, Claimable;
    hide Enqueued, Claiming;
    hide MarkRunning, Apart, Overlaps, HasActive;
    OneMoreRun(s.runs, step.id, Run(Some(s.requests[step.id]), Manual, step.outcome, step.nextRetryAt), k);
  }

  lemma InvParts(s: State)
    requires Inv(s)
    ensures RunsOk(s) && NewIds(s)
  {
  }

  /** Exactly two steps bring a schedule to two active runs: committing a manual run that is to
      be retried while another run of the schedule is active, and publishing the enqueued run
      while a manual one has become active since it was enqueued. */
  lemma OverlapBegins(s: State, step: Step, t: State, k: ScheduleId)
    requires Inv(s) && Next(s, step, t) && !Overlaps(s.runs, k)
    ensures Overlaps(t.runs, k) <==> HasActive(s.runs, k) && (CommitsManual(s, step, k) || PublishesRun(s, step, k))
    ensures Overlaps(t.runs, k) && step.CommitCycle? ==>
      forall id :: id in s.runs && ActiveFor(s.runs[id], k) ==> s.runs[id].trigger.Manual?
  {
    hide Inv, RunsOk, NewIds, Next, Overlaps, HasActive;
    InvParts(s);
    match step {
      case CommitCycle(w) =>
        WorkerCommits(s, w, t);
        CommitOverlap(s, w, t, k);
      case FinishRun(w, _, _) => FinishKeepsOverlap(s, step, t, k);
      case RunNowCommit(id, outcome, nextRetryAt) => ManualOverlap(s, step, t, k);
      case _ => OtherStepsKeepRuns(s, step, t);
    }
  }

  lemma WorkerCommits(s: State, w: WorkerId, t: State)
    requires Next(s, CommitCycle(w), t)
    ensures w in s.workers
  {
    hide MoveAll, MarkRunning;
  }

  lemma FinishKeepsOverlap(s: State, step: Step, t: State, k: ScheduleId)
    requires RunsOk(s) && Next(s, step, t) && step.FinishRun? && !Overlaps(s.runs, k)
    ensures !Overlaps(t.runs, k)
  {
    hide Apart, OneActive, NewIds, PhaseOk, CreatedOk, Overlaps;
    assert WorkerOk(s.runs, s.workers[step.w]);
    NoMoreActive(s.runs, t.runs, k);
  }

  // ---- Runs nobody owns ----

  /** Nothing takes up a run whose worker died: it stays running for ever. */
  ghost predicate Orphan(s: State, id: RunId) {
    id in s.runs && s.runs[id].status.Running? && forall w :: w in s.workers ==> id !in Owned(s.workers[w])
  }

  lemma OrphanBeside(s: State, w: WorkerId, worker: Worker, id: RunId)
    requires Orphan(s, id) && id !in Owned(worker)
    ensures Orphan(WithWorker(s, w, worker), id)
  {
    hide Owned;
  }

  lemma OrphanInCycle(s: State, step: Step, t: State, id: RunId)
    requires NewIds(s) && Next(s, step, t) && Orphan(s, id)
    requires step.BeginCycle? || step.EnqueueOne? || step.ClaimRuns? || step.CommitCycle?
    ensures Orphan(t, id) && t.runs[id] == s.runs[id]
  {
    hide NextRunAt, HasActiveRun, ScheduleLocked, Fresh, Due, RunLocked, MoveAll;
    var w := step.w;
    assert id !in Owned(s.workers[w]) && id !in s.workers[w].created;
    if step.CommitCycle? {
      var runs := MarkRunning(s.runs, s.workers[w].claimed) + s.workers[w].created;
      OrphanBeside(s.(runs := runs), w, t.workers[w], id);
    } else {
      OrphanBeside(s, w, t.workers[w], id);
    }
  }

  lemma OrphanFacts(s: State, id: RunId)
    requires Orphan(s, id) && NewIds(s)
    ensures id in s.runs && id !in s.requests
    ensures forall w :: w in s.workers ==> id !in Owned(s.workers[w])
  {
  }

  lemma OrphanStays(s: State, step: Step, t: State, id: RunId)
    requires Inv(s) && Next(s, step, t) && Orphan(s, id)
    ensures Orphan(t, id) && t.runs[id] == s.runs[id]
  {
    hide SchedulesOk, Apart, OneActive, NextRunAt, WorkersOk, EditTime, HasActiveRun, ScheduleLocked, Fresh;
    hide Due, RunLocked;
    hide MoveAll, Claimable, Enqueued, Claiming, Orphan, MarkRunning, NewIds;
    if step.BeginCycle? || step.EnqueueOne? || step.ClaimRuns? || step.CommitCycle? {
      OrphanInCycle(s, step, t, id);
    } else if step.StartRun? || step.RollbackRun? || step.EndCycle? || step.Crash? {
      OrphanFacts(s, id);
      OrphanBeside(s, step.w, t.workers[step.w], id);
      assert t.runs == s.runs;
    } else if step.FinishRun? {
      OrphanFacts(s, id);
      OrphanBeside(s, step.w, t.workers[step.w], id);
      OtherRunsChange(WithWorker(s, step.w, t.workers[step.w]), t, id);
    } else {
      OrphanFacts(s, id);
      OtherRunsChange(s, t, id);
    }
  }

  lemma OtherRunsChange(s: State, t: State, id: RunId)
    requires Orphan(s, id) && t.workers == s.workers && id in t.runs && t.runs[id] == s.runs[id]
    ensures Orphan(t, id)
  {
  }

  /** Over any further steps an orphan stays as it is. */
  lemma {:induction false} OrphanForEver(states: seq<State>, steps: seq<Step>, id: RunId, i: nat)
    requires Path(states, steps) && Inv(states[0]) && Orphan(states[0], id) && i <= |steps|
    ensures Orphan(states[i], id) && states[i].runs[id] == states[0].runs[id]
  {
    hide Inv, Next, Owned;
    if i > 0 {
      OrphanForEver(states, steps, id, i - 1);
      PathKeepsInv(states, steps, i - 1);
      OrphanStays(states[i - 1], steps[i - 1], states[i], id);
    }
  }

  /** So its schedule is never enqueued again. */
  lemma OrphanBlocksItsSchedule(states: seq<State>, steps: seq<Step>, id: RunId, i: nat, k: ScheduleId)
    requires Path(states, steps) && Inv(states[0]) && Orphan(states[0], id) && states[0].runs[id].schedule == Some(k)
    requires i < |steps| && steps[i].EnqueueOne? && steps[i].k == k
    ensures var w := steps[i].w;
      && w in states[i].workers && w in states[i + 1].workers
      && states[i + 1].workers[w].created == states[i].workers[w].created
      && states[i + 1].workers[w].moved == states[i].workers[w].moved
  {
    hide Inv, NextRunAt, Fresh;
    OrphanForEver(states, steps, id, i);
    assert Next(states[i], steps[i], states[i + 1]);
    assert HasActiveRun(states[i], states[i].workers[steps[i].w], k);
  }

  /** A worker that dies orphans every run it had claimed and not finished, and one whose
      execution is rolled back the run it was executing. */
  lemma DeathOrphans(s: State, step: Step, t: State, id: RunId)
    requires Inv(s) && Next(s, step, t) && (step.Crash? || step.RollbackRun?)
    requires var worker := s.workers[step.w]; worker.current == Some(id) || (step.Crash? && id in worker.left)
    ensures Orphan(t, id)
  {
    hide SchedulesOk, OneActive, PhaseOk, CreatedOk;
    assert WorkerOk(s.runs, s.workers[step.w]);
    forall v | v in t.workers ensures id !in Owned(t.workers[v]) {
      if v != step.w {
        CreatedApart(s.workers[v], s.workers[step.w]);
      } else {
        NothingLeft(s.workers[v], id);
      }
    }
  }

  lemma NothingLeft(worker: Worker, id: RunId)
    ensures id !in Owned(IDLE)
    ensures PhaseOk(worker) && worker.current == Some(id) ==> id !in Owned(worker.(current := None))
  {
  }

  // ---- These happen ----

  // One worker and one schedule: a request runs it by hand, and its transaction is still open
  // when a cycle enqueues the due occurrence.

  const DAILY := Rule("daily", None, None, None)

  function BeforeRequest(start: Instant, due: Instant): State {
    State(due, map[0 := Edited(DAILY, true, Some(due), start)], map[], map[0 := IDLE], map[])
  }

  function Requested(start: Instant, due: Instant): State {
    BeforeRequest(start, due).(requests := map[0 := 0])
  }

  function Cycle(due: Instant, after: Instant, stage: nat): Worker {
    var begun := IDLE.(phase := Enqueuing, locked := {0}, todo := {0});
    if stage == 0 then IDLE
    else if stage == 1 then begun
    else if stage == 2 then Enqueued(begun, 0, 1, Move(due, after))
    else Claiming(Enqueued(begun, 0, 1, Move(due, after)), {1})
  }

  function InCycle(start: Instant, due: Instant, after: Instant, stage: nat): State {
    WithWorker(Requested(start, due), 0, Cycle(due, after, stage))
  }

  function Committed(start: Instant, due: Instant, after: Instant): State {
    var s, worker := InCycle(start, due, after, 3), Cycle(due, after, 3);
    s.(schedules := MoveAll(s.schedules, worker.moved),
       runs := MarkRunning(s.runs, worker.claimed) + worker.created,
       workers := s.workers[0 := IDLE.(phase := Executing, left := worker.claimed)])
  }

  function Overlapping(start: Instant, due: Instant, after: Instant): State {
    var s := Committed(start, due, after);
    s.(requests := s.requests - {0}, runs := s.runs[0 := Run(Some(0), Manual, Queued, None)])
  }

  lemma SceneBegins(start: Instant, due: Instant, after: Instant)
    requires ValidInstant(start) && NextRunAt(DAILY, start) == Ok(due) && ValidInstant(due) && Earlier(start, due)
    ensures var s := State(start, map[], map[], map[0 := IDLE], map[]);
      && Init(s)
      && Next(s, CreateSchedule(0, DAILY, true, start), BeforeRequest(start, due).(clock := start))
      && Next(BeforeRequest(start, due).(clock := start), Tick(due), BeforeRequest(start, due))
      && Next(BeforeRequest(start, due), RunNow(0, 0), Requested(start, due))
  {
    hide NextRunAt, Timeline, ValidInstant;
  }

  lemma SceneCycle(start: Instant, due: Instant, after: Instant)
    requires ValidInstant(due) && NextRunAt(DAILY, due) == Ok(after)
    ensures Next(Requested(start, due), BeginCycle(0, {0}), InCycle(start, due, after, 1))
    ensures Next(InCycle(start, due, after, 1), EnqueueOne(0, 0, 1), InCycle(start, due, after, 2))
  {
    hide NextRunAt, Timeline, ValidInstant;
    assert !HasActiveRun(InCycle(start, due, after, 1), Cycle(due, after, 1), 0);
  }

  lemma SceneClaims(start: Instant, due: Instant, after: Instant)
    requires ValidInstant(due)
    ensures Next(InCycle(start, due, after, 2), ClaimRuns(0, {1}), InCycle(start, due, after, 3))
  {
    hide NextRunAt, Timeline, ValidInstant, MarkRunning;
    var s, worker := InCycle(start, due, after, 2), Cycle(due, after, 2);
    assert s.workers[0] == worker;
    assert Claimable(s, worker, {1});
    assert InCycle(start, due, after, 3) == WithWorker(s, 0, Claiming(worker, {1}));
  }

  lemma SceneEnds(start: Instant, due: Instant, after: Instant)
    requires ValidInstant(due)
    ensures Next(InCycle(start, due, after, 3), CommitCycle(0), Committed(start, due, after))
    ensures Next(Committed(start, due, after), RunNowCommit(0, Queued, None), Overlapping(start, due, after))
  {
    hide NextRunAt, Timeline, ValidInstant, MarkRunning, MoveAll, Enqueued;
  }

  /** What the scene starts from: the first occurrence after New Year 2024, and the next one. */
  lemma SceneTimes() returns (start: Instant, due: Instant, after: Instant)
    ensures ValidInstant(start) && NextRunAt(DAILY, start) == Ok(due) && ValidInstant(due) && Earlier(start, due)
    ensures NextRunAt(DAILY, due) == Ok(after)
  {
    hide NextRunAt, Timeline, LeapYear;
    start := Instant(Date(2024, 1, 1), 0);
    NextRunAtIsFirstAfter(DAILY, start);
    due := NextRunAt(DAILY, start).value;
    NextRunAtIsFirstAfter(DAILY, due);
    after := NextRunAt(DAILY, due).value;
  }

  /** A request still executing does not show in the enqueue step's count: it commits a run to
      be retried beside the one enqueued meanwhile. */
  lemma ManualRunOverlaps() returns (states: seq<State>, steps: seq<Step>)
    ensures Behaviour(states, steps) && Overlaps(states[|states| - 1].runs, 0)
    ensures var runs := states[|states| - 1].runs; exists id :: id in runs && ActiveScheduled(runs[id], 0)
  {
    hide NextRunAt, Timeline, Next, Init, ValidInstant;
    var start, due, after := SceneTimes();
    SceneBegins(start, due, after);
    SceneCycle(start, due, after);
    SceneClaims(start, due, after);
    SceneEnds(start, due, after);
    states := [
      State(start, map[], map[], map[0 := IDLE], map[]), BeforeRequest(start, due).(clock := start),
      BeforeRequest(start, due), Requested(start, due), InCycle(start, due, after, 1), InCycle(start, due, after, 2),
      InCycle(start, due, after, 3), Committed(start, due, after), Overlapping(start, due, after)];
    steps := [
      CreateSchedule(0, DAILY, true, start), Tick(due), RunNow(0, 0), BeginCycle(0, {0}), EnqueueOne(0, 0, 1),
      ClaimRuns(0, {1}), CommitCycle(0), RunNowCommit(0, Queued, None)];
    SceneOverlaps(start, due, after);
  }

  lemma SceneOverlaps(start: Instant, due: Instant, after: Instant)
    ensures Overlaps(Overlapping(start, due, after).runs, 0)
    ensures 1 in Overlapping(start, due, after).runs && ActiveScheduled(Overlapping(start, due, after).runs[1], 0)
  {
    var runs := Overlapping(start, due, after).runs;
    assert 0 in runs && 1 in runs && ActiveFor(runs[0], 0) && ActiveFor(runs[1], 0);
  }

  /** Two requests may do so without any cycle. */
  lemma ManualRunsOverlap() returns (states: seq<State>, steps: seq<Step>)
    ensures Behaviour(states, steps) && Overlaps(states[|states| - 1].runs, 0)
    ensures var runs := states[|states| - 1].runs; forall id :: id in runs ==> runs[id].trigger.Manual?
  {
    hide NextRunAt, Timeline, Init, ValidInstant;
    var start, due, after := SceneTimes();
    SceneBegins(start, due, after);
    var one := Requested(start, due);
    var two := one.(requests := one.requests[1 := 0]);
    var run := Run(Some(0), Manual, Queued, None);
    var three := two.(requests := two.requests - {0}, runs := two.runs[0 := run]);
    var four := three.(requests := three.requests - {1}, runs := three.runs[1 := run]);
    assert Next(one, RunNow(0, 1), two);
    assert Next(two, RunNowCommit(0, Queued, None), three);
    assert Next(three, RunNowCommit(1, Queued, None), four);
    assert ActiveFor(four.runs[0], 0) && ActiveFor(four.runs[1], 0);
    states := [
      State(start, map[], map[], map[0 := IDLE], map[]), BeforeRequest(start, due).(clock := start),
      BeforeRequest(start, due), one, two, three, four];
    steps := [
      CreateSchedule(0, DAILY, true, start), Tick(due), RunNow(0, 0), RunNow(0, 1),
      RunNowCommit(0, Queued, None), RunNowCommit(1, Queued, None)];
  }

  /** A worker that dies after committing its claims leaves an enqueued run for ever running. */
  lemma OrphanHappens() returns (states: seq<State>, steps: seq<Step>)
    ensures Behaviour(states, steps) && Orphan(states[|states| - 1], 1)
    ensures ActiveScheduled(states[|states| - 1].runs[1], 0)
  {
    hide NextRunAt, Timeline, Next, Init, ValidInstant, Orphan;
    var start, due, after := SceneTimes();
    SceneBegins(start, due, after);
    SceneCycle(start, due, after);
    SceneClaims(start, due, after);
    SceneEnds(start, due, after);
    SceneDeath(start, due, after);
    states := [
      State(start, map[], map[], map[0 := IDLE], map[]), BeforeRequest(start, due).(clock := start),
      BeforeRequest(start, due), Requested(start, due), InCycle(start, due, after, 1), InCycle(start, due, after, 2),
      InCycle(start, due, after, 3), Committed(start, due, after), WithWorker(Committed(start, due, after), 0, IDLE)];
    steps := [
      CreateSchedule(0, DAILY, true, start), Tick(due), RunNow(0, 0), BeginCycle(0, {0}), EnqueueOne(0, 0, 1),
      ClaimRuns(0, {1}), CommitCycle(0), Crash(0)];
  }

  lemma SceneDeath(start: Instant, due: Instant, after: Instant)
    requires ValidInstant(due)
    ensures var s := Committed(start, due, after);
      && Next(s, Crash(0), WithWorker(s, 0, IDLE)) && Orphan(WithWorker(s, 0, IDLE), 1)
      && ActiveScheduled(s.runs[1], 0)
  {
    hide ValidInstant;
  }
}
