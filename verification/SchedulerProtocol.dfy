/** The report scheduler as a transition system: several workers enqueue due schedules and
    claim runs under row locks that skip locked rows, execute what they claimed, and may crash
    anywhere, while the API edits schedules and runs them by hand. */
module SchedulerProtocol {
  import opened Wrappers
  import opened Calendar
  import opened NextRun
  import opened RunStatus

  type ScheduleId = nat
  type RunId = nat
  type WorkerId = nat

  datatype Trigger = Scheduled | Manual

  datatype Run = Run(schedule: Option<ScheduleId>, trigger: Trigger, status: Status, nextRetryAt: Option<Instant>)

  /** A run enqueued at some time for the occurrence that was due. */
  datatype Firing = Firing(due: Instant, at: Instant)

  /** `setAt` and `firings` record history: the last edit, and the runs enqueued since. */
  datatype Schedule = Schedule(
    rule: Rule, isActive: bool, nextRunAt: Option<Instant>, setAt: Instant, firings: seq<Firing>)

  datatype Phase = Idle | Enqueuing | Claimed | Executing

  /** A schedule's new next run, computed at some time. */
  datatype Move = Move(at: Instant, next: Instant)

  /** The open transaction of a cycle: the schedules it locked and those still to look at, the
      rows it has written, the runs it has claimed. Then what is left to execute. */
  datatype Worker = Worker(
    phase: Phase,
    locked: set<ScheduleId>, todo: set<ScheduleId>, moved: map<ScheduleId, Move>, created: map<RunId, Run>,
    claimed: set<RunId>,
    left: set<RunId>, current: Option<RunId>)

  const IDLE := Worker(Idle, {}, {}, map[], map[], {}, {}, None)

  /** Committed rows, the workers, and the runs that API requests hold in open transactions. */
  datatype State = State(
    clock: Instant,
    schedules: map<ScheduleId, Schedule>, runs: map<RunId, Run>,
    workers: map<WorkerId, Worker>,
    requests: map<RunId, ScheduleId>)

  // ---- Steps ----

  datatype Step =
    | Tick(now: Instant)
    | BeginCycle(w: WorkerId, batch: set<ScheduleId>)
    | EnqueueOne(w: WorkerId, k: ScheduleId, id: RunId)
    | ClaimRuns(w: WorkerId, batch: set<RunId>)
    | CommitCycle(w: WorkerId)
    | StartRun(w: WorkerId, id: RunId)
    | FinishRun(w: WorkerId, outcome: Status, nextRetryAt: Option<Instant>)
    | RollbackRun(w: WorkerId)
    | EndCycle(w: WorkerId)
    | Crash(w: WorkerId)
    | RunNow(k: ScheduleId, id: RunId)
    | RunNowCommit(id: RunId, outcome: Status, nextRetryAt: Option<Instant>)
    | RunNowAbort(id: RunId)
    | CreateSchedule(k: ScheduleId, rule: Rule, isActive: bool, at: Instant)
    | PatchSchedule(k: ScheduleId, rule: Rule, isActive: bool, at: Instant)
    | ToggleSchedule(k: ScheduleId, at: Instant)

  predicate NotAfter(a: Instant, b: Instant)
    requires ValidInstant(a) && ValidInstant(b)
  {
    Timeline(a) <= Timeline(b)
  }

  ghost predicate Fresh(s: State, id: RunId) {
    id !in s.runs && id !in s.requests && forall w :: w in s.workers ==> id !in s.workers[w].created
  }

  ghost predicate ScheduleLocked(s: State, k: ScheduleId) {
    exists w :: w in s.workers && k in s.workers[w].locked
  }

  ghost predicate RunLocked(s: State, id: RunId) {
    exists w :: w in s.workers && id in s.workers[w].claimed
  }

  predicate Due(schedule: Schedule, now: Instant)
    requires ValidInstant(now)
  {
    && schedule.isActive && schedule.nextRunAt.Some?
    && ValidInstant(schedule.nextRunAt.value) && NotAfter(schedule.nextRunAt.value, now)
  }

  predicate Runnable(run: Run, now: Instant)
    requires ValidInstant(now)
  {
    && run.status.Queued?
    && (run.nextRetryAt.Some? ==> ValidInstant(run.nextRetryAt.value) && NotAfter(run.nextRetryAt.value, now))
  }

  /** The statement counting a schedule's active runs sees committed rows and its own. */
  predicate HasActiveRun(s: State, w: Worker, k: ScheduleId) {
    || (exists id :: id in s.runs && s.runs[id].schedule == Some(k) && Active(s.runs[id].status))
    || (exists id :: id in w.created && w.created[id].schedule == Some(k) && Active(w.created[id].status))
  }

  function Enqueued(worker: Worker, k: ScheduleId, id: RunId, m: Move): Worker {
    worker.(
      todo := worker.todo - {k}, moved := worker.moved[k := m],
      created := worker.created[id := Run(Some(k), Scheduled, Queued, Some(m.at))])
  }

  function Claiming(worker: Worker, batch: set<RunId>): Worker {
    worker.(phase := Claimed, claimed := batch, created := MarkRunning(worker.created, batch))
  }

  /** What the claiming statement may return. */
  ghost predicate Claimable(s: State, worker: Worker, batch: set<RunId>)
    requires ValidInstant(s.clock)
  {
    forall id :: id in batch ==>
      || (id in s.runs && Runnable(s.runs[id], s.clock) && !RunLocked(s, id))
      || (id in worker.created && Runnable(worker.created[id], s.clock))
  }

  /** A schedule as written by an edit at that time. */
  function Edited(rule: Rule, isActive: bool, next: Option<Instant>, at: Instant): Schedule {
    Schedule(rule, isActive, next, at, [])
  }

  function Advanced(schedule: Schedule, m: Move): Schedule
    requires schedule.nextRunAt.Some?
  {
    schedule.(nextRunAt := Some(m.next), firings := schedule.firings + [Firing(schedule.nextRunAt.value, m.at)])
  }

  function MarkRunning(runs: map<RunId, Run>, claimed: set<RunId>): (r: map<RunId, Run>)
    ensures r.Keys == runs.Keys
  {
    map id | id in runs :: if id in claimed then runs[id].(status := Running) else runs[id]
  }

  function MoveAll(schedules: map<ScheduleId, Schedule>, moved: map<ScheduleId, Move>): (r: map<ScheduleId, Schedule>)
    ensures r.Keys == schedules.Keys
  {
    map k | k in schedules ::
      if k in moved && schedules[k].nextRunAt.Some? then Advanced(schedules[k], moved[k]) else schedules[k]
  }

  function WithWorker(s: State, w: WorkerId, worker: Worker): State {
    s.(workers := s.workers[w := worker])
  }

  /** An edit may have read the clock a while ago; it waits for the schedule's row lock. */
  ghost predicate EditTime(s: State, rule: Rule, at: Instant) {
    ValidInstant(s.clock) && ValidInstant(at) && NotAfter(at, s.clock) && ValidRule(rule) && NextRunAt(rule, at).Ok?
  }

  ghost predicate Next(s: State, step: Step, t: State) {
    && ValidInstant(s.clock)
    && match step
       case Tick(now) => ValidInstant(now) && NotAfter(s.clock, now) && t == s.(clock := now)
       case BeginCycle(w, batch) =>
         && w in s.workers && s.workers[w] == IDLE
         && (forall k :: k in batch ==> k in s.schedules && Due(s.schedules[k], s.clock) && !ScheduleLocked(s, k))
         && t == WithWorker(s, w, IDLE.(phase := Enqueuing, locked := batch, todo := batch))
       case EnqueueOne(w, k, id) =>
         && w in s.workers && s.workers[w].phase.Enqueuing? && k in s.workers[w].todo && k in s.schedules
         && var worker, rule := s.workers[w], s.schedules[k].rule;
         if HasActiveRun(s, worker, k) then t == WithWorker(s, w, worker.(todo := worker.todo - {k}))
         else
           && Fresh(s, id) && ValidRule(rule) && NextRunAt(rule, s.clock).Ok?
           && t == WithWorker(s, w, Enqueued(worker, k, id, Move(s.clock, NextRunAt(rule, s.clock).value)))
       case ClaimRuns(w, batch) =>
         && w in s.workers && s.workers[w].phase.Enqueuing? && s.workers[w].todo == {}
         && Claimable(s, s.workers[w], batch) && t == WithWorker(s, w, Claiming(s.workers[w], batch))
       case CommitCycle(w) =>
         && w in s.workers && s.workers[w].phase.Claimed?
         && var worker := s.workers[w];
         t == s.(
           schedules := MoveAll(s.schedules, worker.moved),
           runs := MarkRunning(s.runs, worker.claimed) + worker.created,
           workers := s.workers[w := IDLE.(phase := Executing, left := worker.claimed)])
       case StartRun(w, id) =>
         && w in s.workers && s.workers[w].phase.Executing? && s.workers[w].current.None? && id in s.workers[w].left
         && t == WithWorker(s, w, s.workers[w].(left := s.workers[w].left - {id}, current := Some(id)))
       case FinishRun(w, outcome, nextRetryAt) =>
         && w in s.workers && s.workers[w].current.Some? && !outcome.Running? && s.workers[w].current.value in s.runs
         && var id := s.workers[w].current.value;
         t == WithWorker(s, w, s.workers[w].(current := None))
           .(runs := s.runs[id := s.runs[id].(status := outcome, nextRetryAt := nextRetryAt)])
       case RollbackRun(w) =>
         && w in s.workers && s.workers[w].current.Some?
         && t == WithWorker(s, w, s.workers[w].(current := None))
       case EndCycle(w) =>
         && w in s.workers && s.workers[w].phase.Executing? && s.workers[w].current.None? && s.workers[w].left == {}
         && t == WithWorker(s, w, IDLE)
       case Crash(w) =>
         w in s.workers && t == WithWorker(s, w, IDLE)
       case RunNow(k, id) =>
         k in s.schedules && Fresh(s, id) && t == s.(requests := s.requests[id := k])
       case RunNowCommit(id, outcome, nextRetryAt) =>
         && id in s.requests && !outcome.Running?
         && t == s.(requests := s.requests - {id},
                    runs := s.runs[id := Run(Some(s.requests[id]), Manual, outcome, nextRetryAt)])
       case RunNowAbort(id) =>
         id in s.requests && t == s.(requests := s.requests - {id})
       case CreateSchedule(k, rule, isActive, at) =>
         && k !in s.schedules && EditTime(s, rule, at)
         && t == s.(schedules := s.schedules[k := Edited(rule, isActive, Some(NextRunAt(rule, at).value), at)])
       case PatchSchedule(k, rule, isActive, at) =>
         && k in s.schedules && !ScheduleLocked(s, k) && EditTime(s, rule, at)
         && t == s.(schedules := s.schedules[k := Edited(rule, isActive, Some(NextRunAt(rule, at).value), at)])
       case ToggleSchedule(k, at) =>
         && k in s.schedules && !ScheduleLocked(s, k) && EditTime(s, s.schedules[k].rule, at)
         && var rule, on := s.schedules[k].rule, !s.schedules[k].isActive;
         var next := if on then Some(NextRunAt(rule, at).value) else None;
         t == s.(schedules := s.schedules[k := Edited(rule, on, next, at)])
  }

  ghost predicate Init(s: State) {
    && ValidInstant(s.clock) && s.schedules == map[] && s.runs == map[] && s.requests == map[]
    && forall w :: w in s.workers ==> s.workers[w] == IDLE
  }

  ghost predicate Path(states: seq<State>, steps: seq<Step>) {
    |states| == |steps| + 1 && forall i :: 0 <= i < |steps| ==> Next(states[i], steps[i], states[i + 1])
  }

  /** A run of the system: states from the start, and the steps between them. */
  ghost predicate Behaviour(states: seq<State>, steps: seq<Step>) {
    Path(states, steps) && Init(states[0])
  }

  // ---- Who runs what ----

  /** The runs a worker has claimed, in an open transaction or to execute. */
  function Owned(w: Worker): set<RunId> {
    w.claimed + w.left + (if w.current.Some? then {w.current.value} else {})
  }

  /** A cycle's phases use only their own part of the worker's state. */
  ghost predicate PhaseOk(w: Worker) {
    && w.todo <= w.locked && w.moved.Keys <= w.locked && w.moved.Keys !! w.todo
    && (w.phase.Idle? || w.phase.Executing? ==> w.locked == {} && w.created == map[] && w.claimed == {})
    && (w.phase.Idle? || w.phase.Enqueuing? || w.phase.Claimed? ==> w.left == {} && w.current == None)
    && (w.phase.Enqueuing? ==> w.claimed == {})
    && (w.phase.Claimed? ==> w.todo == {})
    && (w.current.Some? ==> w.current.value !in w.left)
  }

  ghost predicate CreatedOk(w: Worker) {
    && (forall id :: id in w.created ==>
          && w.created[id].trigger == Scheduled && w.created[id].schedule.Some?
          && w.created[id].schedule.value in w.moved
          && w.created[id].status == if id in w.claimed then Running else Queued)
    && (forall a, b :: a in w.created && b in w.created && w.created[a].schedule == w.created[b].schedule ==> a == b)
  }

  ghost predicate OwnedOk(runs: map<RunId, Run>, w: Worker) {
    && (forall id :: id in w.claimed ==> id in w.created || (id in runs && runs[id].status.Queued?))
    && (forall id :: id in w.left || w.current == Some(id) ==> id in runs && runs[id].status.Running?)
  }

  ghost predicate WorkerApart(v: Worker, w: Worker) {
    v.locked !! w.locked && v.created.Keys !! w.created.Keys && Owned(v) !! Owned(w)
  }

  ghost predicate Apart(s: State) {
    forall v, w :: v in s.workers && w in s.workers && v != w ==> WorkerApart(s.workers[v], s.workers[w])
  }

  ghost predicate NewIds(s: State) {
    && s.requests.Keys !! s.runs.Keys
    && forall w :: w in s.workers ==>
        s.workers[w].created.Keys !! s.runs.Keys && s.workers[w].created.Keys !! s.requests.Keys
  }

  /** The run was created by the enqueue step for schedule k and is not over. */
  predicate ActiveScheduled(run: Run, k: ScheduleId) {
    run.schedule == Some(k) && run.trigger == Scheduled && (run.status.Queued? || run.status.Running?)
  }

  ghost predicate OneCommitted(runs: map<RunId, Run>) {
    forall a, b, k :: a in runs && b in runs && ActiveScheduled(runs[a], k) && ActiveScheduled(runs[b], k) ==> a == b
  }

  /** A cycle that enqueues for a schedule is the only one to have an active run for it. */
  ghost predicate NoneCommitted(runs: map<RunId, Run>, w: Worker) {
    forall k, a :: k in w.moved && a in runs ==> !ActiveScheduled(runs[a], k)
  }

  ghost predicate OneActive(s: State) {
    OneCommitted(s.runs) && forall w :: w in s.workers ==> NoneCommitted(s.runs, s.workers[w])
  }

  ghost predicate WorkerOk(runs: map<RunId, Run>, w: Worker) {
    PhaseOk(w) && CreatedOk(w) && OwnedOk(runs, w)
  }

  ghost predicate WorkersOk(s: State) {
    forall w :: w in s.workers ==> WorkerOk(s.runs, s.workers[w])
  }

  // ---- What schedules fired for ----

  function LastTime(setAt: Instant, firings: seq<Firing>): Instant {
    if firings == [] then setAt else firings[|firings| - 1].at
  }

  /** Each firing is for the first occurrence after the one before was enqueued, or after the
      edit, and happens when that occurrence has passed. */
  ghost predicate Chain(rule: Rule, setAt: Instant, firings: seq<Firing>, clock: Instant)
    requires ValidRule(rule) && ValidInstant(clock)
  {
    if firings == [] then ValidInstant(setAt) && NotAfter(setAt, clock)
    else
      var init, last := firings[..|firings| - 1], firings[|firings| - 1];
      && Chain(rule, setAt, init, clock)
      && ValidInstant(LastTime(setAt, init)) && ValidInstant(last.at) && NotAfter(last.at, clock)
      && FirstAfter(rule, LastTime(setAt, init), last.due)
      && NotAfter(last.due, last.at)
  }

  ghost predicate HistoryOk(schedule: Schedule, clock: Instant) {
    && ValidRule(schedule.rule) && Computable(schedule.rule) && ValidInstant(clock)
    && Chain(schedule.rule, schedule.setAt, schedule.firings, clock)
    && ValidInstant(LastTime(schedule.setAt, schedule.firings))
    && (schedule.nextRunAt.Some? ==>
          FirstAfter(schedule.rule, LastTime(schedule.setAt, schedule.firings), schedule.nextRunAt.value))
  }

  ghost predicate MoveOk(schedule: Schedule, m: Move, clock: Instant) {
    && ValidInstant(m.at) && ValidInstant(clock) && NotAfter(m.at, clock)
    && ValidRule(schedule.rule) && FirstAfter(schedule.rule, m.at, m.next)
    && schedule.nextRunAt.Some? && ValidInstant(schedule.nextRunAt.value) && NotAfter(schedule.nextRunAt.value, m.at)
  }

  ghost predicate SchedulesOk(s: State) {
    && ValidInstant(s.clock)
    && (forall k :: k in s.schedules ==> HistoryOk(s.schedules[k], s.clock))
    && (forall w, k :: w in s.workers && k in s.workers[w].locked ==> k in s.schedules && Due(s.schedules[k], s.clock))
    && (forall w, k :: w in s.workers && k in s.workers[w].moved ==>
          k in s.schedules && MoveOk(s.schedules[k], s.workers[w].moved[k], s.clock))
  }

  // ---- When the owned runs are due ----

  /** The run need not wait at that time. */
  predicate NoLongerWaits(run: Run, now: Instant) {
    run.nextRetryAt == None
    || (ValidInstant(run.nextRetryAt.value) && ValidInstant(now) && Timeline(run.nextRetryAt.value) <= Timeline(now))
  }

  /** The runs a worker owns, as it sees them, are due. */
  ghost predicate OwnsDue(runs: map<RunId, Run>, worker: Worker, now: Instant) {
    forall id :: id in Owned(worker) ==>
      && (id in worker.created ==> NoLongerWaits(worker.created[id], now))
      && (id in runs ==> NoLongerWaits(runs[id], now))
  }

  ghost predicate OwnedDue(s: State) {
    forall w :: w in s.workers ==> OwnsDue(s.runs, s.workers[w], s.clock)
  }

  ghost predicate Inv(s: State) {
    WorkersOk(s) && Apart(s) && NewIds(s) && OneActive(s) && SchedulesOk(s) && OwnedDue(s)
  }

  // ---- Every step keeps the invariant on runs and workers ----

  ghost predicate RunsOk(s: State) {
    WorkersOk(s) && Apart(s) && NewIds(s) && OneActive(s)
  }

  /** The worker may take w's place. */
  ghost predicate Fits(s: State, w: WorkerId, worker: Worker) {
    && WorkerOk(s.runs, worker) && NoneCommitted(s.runs, worker)
    && (forall v :: v in s.workers && v != w ==> WorkerApart(s.workers[v], worker))
    && worker.created.Keys !! s.runs.Keys && worker.created.Keys !! s.requests.Keys
  }

  lemma ApartIsSymmetric(v: Worker, w: Worker)
    requires WorkerApart(v, w)
    ensures WorkerApart(w, v)
  {
    hide Owned;
  }

  lemma PutWorker(s: State, w: WorkerId, worker: Worker)
    requires RunsOk(s) && Fits(s, w, worker)
    ensures RunsOk(WithWorker(s, w, worker))
  {
    hide WorkerOk, WorkerApart, NoneCommitted, OneCommitted;
    var t := WithWorker(s, w, worker);
    forall u, v | u in t.workers && v in t.workers && u != v ensures WorkerApart(t.workers[u], t.workers[v]) {
      if u == w { ApartIsSymmetric(s.workers[v], worker); }
    }
  }

  /** A worker that only gives up rows still fits. */
  lemma Shrinks(s: State, w: WorkerId, worker: Worker)
    requires RunsOk(s) && w in s.workers && WorkerOk(s.runs, worker)
    requires worker.locked <= s.workers[w].locked && worker.created.Keys <= s.workers[w].created.Keys
    requires Owned(worker) <= Owned(s.workers[w]) && worker.moved.Keys <= s.workers[w].moved.Keys
    ensures Fits(s, w, worker)
  {
    hide WorkerOk, ActiveScheduled, Owned;
    forall v | v in s.workers && v != w ensures WorkerApart(s.workers[v], worker) {
      assert WorkerApart(s.workers[v], s.workers[w]);
    }
    assert NoneCommitted(s.runs, s.workers[w]);
  }

  lemma BeginCycleFits(s: State, w: WorkerId, batch: set<ScheduleId>)
    requires RunsOk(s) && w in s.workers && s.workers[w] == IDLE
    requires forall k :: k in batch ==> !ScheduleLocked(s, k)
    ensures Fits(s, w, IDLE.(phase := Enqueuing, locked := batch, todo := batch))
  {
    hide WorkersOk, Apart, NewIds, OneActive;
  }

  lemma EnqueuedOk(runs: map<RunId, Run>, worker: Worker, k: ScheduleId, id: RunId, m: Move)
    requires WorkerOk(runs, worker) && NoneCommitted(runs, worker)
    requires worker.phase.Enqueuing? && k in worker.todo && id !in worker.created && id !in runs
    requires forall a :: a in runs ==> !ActiveScheduled(runs[a], k)
    ensures WorkerOk(runs, Enqueued(worker, k, id, m)) && NoneCommitted(runs, Enqueued(worker, k, id, m))
  {
    hide ActiveScheduled, PhaseOk, CreatedOk;
    EnqueuedPhase(worker, k, id, m);
    EnqueuedCreates(worker, k, id, m);
  }

  lemma EnqueuedPhase(worker: Worker, k: ScheduleId, id: RunId, m: Move)
    requires PhaseOk(worker) && worker.phase.Enqueuing? && k in worker.todo
    ensures PhaseOk(Enqueued(worker, k, id, m))
  {
  }

  lemma EnqueuedCreates(worker: Worker, k: ScheduleId, id: RunId, m: Move)
    requires PhaseOk(worker) && CreatedOk(worker)
    requires worker.phase.Enqueuing? && k in worker.todo && id !in worker.created
    ensures CreatedOk(Enqueued(worker, k, id, m))
  {
  }

  lemma NoneActive(s: State, worker: Worker, k: ScheduleId)
    requires !HasActiveRun(s, worker, k)
    ensures forall a :: a in s.runs ==> !ActiveScheduled(s.runs[a], k)
  {
  }

  lemma EnqueueFits(s: State, w: WorkerId, k: ScheduleId, id: RunId, m: Move)
    requires RunsOk(s) && w in s.workers && s.workers[w].phase.Enqueuing? && k in s.workers[w].todo
    requires !HasActiveRun(s, s.workers[w], k) && Fresh(s, id)
    ensures Fits(s, w, Enqueued(s.workers[w], k, id, m))
  {
    hide WorkerOk, WorkerApart, NoneCommitted, OneCommitted, HasActiveRun;
    var worker := s.workers[w];
    NoneActive(s, worker, k);
    EnqueuedOk(s.runs, worker, k, id, m);
    forall v | v in s.workers && v != w ensures WorkerApart(s.workers[v], Enqueued(worker, k, id, m)) {
      StaysApart(s.workers[v], worker, k, id, m);
    }
  }

  lemma StaysApart(v: Worker, worker: Worker, k: ScheduleId, id: RunId, m: Move)
    requires WorkerApart(v, worker) && id !in v.created
    ensures WorkerApart(v, Enqueued(worker, k, id, m))
  {
    assert Owned(Enqueued(worker, k, id, m)) == Owned(worker);
  }

  lemma ClaimingOk(s: State, worker: Worker, batch: set<RunId>)
    requires WorkerOk(s.runs, worker) && NoneCommitted(s.runs, worker)
    requires ValidInstant(s.clock) && worker.phase.Enqueuing? && worker.todo == {} && Claimable(s, worker, batch)
    ensures WorkerOk(s.runs, Claiming(worker, batch)) && NoneCommitted(s.runs, Claiming(worker, batch))
    ensures Owned(Claiming(worker, batch)) == batch
  {
    hide ActiveScheduled, RunLocked;
  }

  lemma NotOwnedByOther(s: State, w: WorkerId, v: WorkerId, batch: set<RunId>)
    requires RunsOk(s) && w in s.workers && v in s.workers && v != w
    requires ValidInstant(s.clock) && Claimable(s, s.workers[w], batch)
    ensures batch !! Owned(s.workers[v])
  {
    hide PhaseOk, CreatedOk, NoneCommitted, OneCommitted;
    assert WorkerOk(s.runs, s.workers[v]) && WorkerApart(s.workers[v], s.workers[w]);
    forall id | id in batch ensures id !in Owned(s.workers[v]) {
      if id in s.runs {
        assert id !in s.workers[w].created;
        assert id !in s.workers[v].claimed;
      }
    }
  }

  lemma ClaimFits(s: State, w: WorkerId, batch: set<RunId>)
    requires RunsOk(s) && w in s.workers && s.workers[w].phase.Enqueuing? && s.workers[w].todo == {}
    requires ValidInstant(s.clock) && Claimable(s, s.workers[w], batch)
    ensures Fits(s, w, Claiming(s.workers[w], batch))
  {
    hide WorkerOk, NoneCommitted, OneCommitted, Claimable, Owned;
    ClaimingOk(s, s.workers[w], batch);
    forall v | v in s.workers && v != w ensures WorkerApart(s.workers[v], Claiming(s.workers[w], batch)) {
      assert WorkerApart(s.workers[v], s.workers[w]);
      NotOwnedByOther(s, w, v, batch);
    }
  }

  function CommittedRuns(s: State, worker: Worker): map<RunId, Run> {
    MarkRunning(s.runs, worker.claimed) + worker.created
  }

  lemma OwnedAfterCommit(worker: Worker)
    ensures Owned(IDLE.(phase := Executing, left := worker.claimed)) <= Owned(worker)
  {
  }

  lemma CommitBeside(s: State, w: WorkerId, v: WorkerId)
    requires RunsOk(s) && w in s.workers && v in s.workers && v != w && s.workers[w].phase.Claimed?
    ensures var runs := CommittedRuns(s, s.workers[w]);
      && WorkerOk(runs, s.workers[v]) && NoneCommitted(runs, s.workers[v])
      && WorkerApart(s.workers[v], IDLE.(phase := Executing, left := s.workers[w].claimed))
      && s.workers[v].created.Keys !! runs.Keys
  {
    hide WorkerOk, WorkerApart, NoneCommitted, OneCommitted, Owned;
    var worker, after := s.workers[w], IDLE.(phase := Executing, left := s.workers[w].claimed);
    assert WorkerOk(s.runs, worker) && WorkerOk(s.runs, s.workers[v]) && NoneCommitted(s.runs, s.workers[v]);
    assert WorkerApart(s.workers[v], worker);
    OthersUnaffected(s.runs, worker, s.workers[v]);
    OwnedAfterCommit(worker);
    ShrunkApart(s.workers[v], worker, after);
    CreatedApart(s.workers[v], worker);
    assert s.workers[v].created.Keys !! s.runs.Keys;
  }

  lemma CommitKeeps(s: State, w: WorkerId)
    requires RunsOk(s) && w in s.workers && s.workers[w].phase.Claimed?
    ensures var worker := s.workers[w];
      RunsOk(s.(runs := CommittedRuns(s, worker),
                workers := s.workers[w := IDLE.(phase := Executing, left := worker.claimed)]))
  {
    hide WorkerOk, WorkerApart, NoneCommitted, OneCommitted, Owned;
    var worker, after := s.workers[w], IDLE.(phase := Executing, left := s.workers[w].claimed);
    assert WorkerOk(s.runs, worker) && NoneCommitted(s.runs, worker);
    CommittedOk(s.runs, worker);
    var t := s.(runs := CommittedRuns(s, worker), workers := s.workers[w := after]);
    forall v | v in s.workers && v != w
      ensures WorkerOk(t.runs, s.workers[v]) && NoneCommitted(t.runs, s.workers[v])
      ensures WorkerApart(s.workers[v], after) && s.workers[v].created.Keys !! t.runs.Keys
    {
      CommitBeside(s, w, v);
    }
    forall u, v | u in t.workers && v in t.workers && u != v ensures WorkerApart(t.workers[u], t.workers[v]) {
      if u == w { ApartIsSymmetric(s.workers[v], after); }
    }
  }

  lemma CreatedApart(v: Worker, w: Worker)
    requires WorkerApart(v, w)
    ensures v.created.Keys !! w.created.Keys && Owned(v) !! Owned(w)
  {
    hide Owned;
  }

  lemma ShrunkApart(v: Worker, worker: Worker, after: Worker)
    requires WorkerApart(v, worker)
    requires after.locked <= worker.locked && after.created.Keys <= worker.created.Keys && Owned(after) <= Owned(worker)
    ensures WorkerApart(v, after)
  {
    hide Owned;
  }

  /** Committing brings in only the runs the cycle created. */
  lemma CommittedActive(runs: map<RunId, Run>, worker: Worker, a: RunId, k: ScheduleId)
    requires CreatedOk(worker) && worker.created.Keys !! runs.Keys && OwnedOk(runs, worker)
    requires var after := MarkRunning(runs, worker.claimed) + worker.created;
      a in after && ActiveScheduled(after[a], k)
    ensures (a in runs && ActiveScheduled(runs[a], k))
         || (a in worker.created && worker.created[a].schedule == Some(k) && k in worker.moved)
  {
  }

  lemma CommittedOk(runs: map<RunId, Run>, worker: Worker)
    requires WorkerOk(runs, worker) && NoneCommitted(runs, worker) && OneCommitted(runs)
    requires worker.phase.Claimed? && worker.created.Keys !! runs.Keys
    ensures var after := MarkRunning(runs, worker.claimed) + worker.created;
      && OneCommitted(after)
      && WorkerOk(after, IDLE.(phase := Executing, left := worker.claimed))
      && NoneCommitted(after, IDLE.(phase := Executing, left := worker.claimed))
  {
    hide ActiveScheduled;
    var after := MarkRunning(runs, worker.claimed) + worker.created;
    forall a, b, k | a in after && b in after && ActiveScheduled(after[a], k) && ActiveScheduled(after[b], k)
      ensures a == b
    {
      CommittedActive(runs, worker, a, k);
      CommittedActive(runs, worker, b, k);
    }
  }

  lemma OthersUnaffected(runs: map<RunId, Run>, worker: Worker, v: Worker)
    requires WorkerOk(runs, worker) && WorkerOk(runs, v) && NoneCommitted(runs, v) && WorkerApart(v, worker)
    requires worker.created.Keys !! runs.Keys
    ensures var after := MarkRunning(runs, worker.claimed) + worker.created;
      WorkerOk(after, v) && NoneCommitted(after, v)
  {
    var after := MarkRunning(runs, worker.claimed) + worker.created;
    assert forall a, k :: a in runs && ActiveScheduled(after[a], k) ==> ActiveScheduled(runs[a], k);
    assert forall a, k :: a in worker.created && ActiveScheduled(after[a], k) ==> k in worker.moved;
    assert worker.claimed !! v.claimed && worker.claimed !! v.left;
  }

  /** A run nobody owns may end or go back to waiting. */
  lemma EndKeeps(s: State, id: RunId, run: Run)
    requires RunsOk(s) && id in s.runs && (forall w :: w in s.workers ==> id !in Owned(s.workers[w]))
    requires run.schedule == s.runs[id].schedule && run.trigger == s.runs[id].trigger && Active(s.runs[id].status)
    ensures RunsOk(s.(runs := s.runs[id := run]))
  {
    hide PhaseOk, CreatedOk, WorkerApart;
    var runs := s.runs[id := run];
    assert forall a, k :: a in runs && ActiveScheduled(runs[a], k) ==> ActiveScheduled(s.runs[a], k);
    forall w | w in s.workers ensures WorkerOk(runs, s.workers[w]) && NoneCommitted(runs, s.workers[w]) {
      assert WorkerOk(s.runs, s.workers[w]) && NoneCommitted(s.runs, s.workers[w]);
      assert id !in Owned(s.workers[w]);
    }
  }

  lemma ManualUnnoticed(runs: map<RunId, Run>, id: RunId, run: Run, worker: Worker)
    requires WorkerOk(runs, worker) && NoneCommitted(runs, worker) && id !in runs && run.trigger.Manual?
    ensures WorkerOk(runs[id := run], worker) && NoneCommitted(runs[id := run], worker)
  {
  }

  lemma ManualKeeps(s: State, id: RunId, run: Run)
    requires RunsOk(s) && id in s.requests && run.trigger.Manual?
    ensures RunsOk(s.(requests := s.requests - {id}, runs := s.runs[id := run]))
  {
    hide WorkerOk, WorkerApart, NoneCommitted;
    var runs := s.runs[id := run];
    forall w | w in s.workers ensures WorkerOk(runs, s.workers[w]) && NoneCommitted(runs, s.workers[w]) {
      assert WorkerOk(s.runs, s.workers[w]) && NoneCommitted(s.runs, s.workers[w]);
      ManualUnnoticed(s.runs, id, run, s.workers[w]);
    }
    assert forall k :: !ActiveScheduled(run, k);
  }

  lemma StartOk(runs: map<RunId, Run>, worker: Worker, id: RunId)
    requires WorkerOk(runs, worker) && worker.phase.Executing? && worker.current.None? && id in worker.left
    ensures var after := worker.(left := worker.left - {id}, current := Some(id));
      WorkerOk(runs, after) && Owned(after) == Owned(worker)
  {
  }

  lemma DropOk(runs: map<RunId, Run>, worker: Worker)
    requires WorkerOk(runs, worker) && worker.current.Some?
    ensures var after := worker.(current := None);
      && WorkerOk(runs, after) && Owned(after) <= Owned(worker) && worker.current.value !in Owned(after)
      && worker.current.value in Owned(worker)
      && worker.current.value in runs && runs[worker.current.value].status.Running?
  {
  }

  lemma FinishKeeps(s: State, w: WorkerId, run: Run)
    requires RunsOk(s) && w in s.workers && s.workers[w].current.Some? && s.workers[w].current.value in s.runs
    requires var id := s.workers[w].current.value;
      run.schedule == s.runs[id].schedule && run.trigger == s.runs[id].trigger
    ensures var id := s.workers[w].current.value;
      RunsOk(WithWorker(s, w, s.workers[w].(current := None)).(runs := s.runs[id := run]))
  {
    hide WorkerOk, WorkerApart, NoneCommitted, OneCommitted, Owned;
    var id, after := s.workers[w].current.value, s.workers[w].(current := None);
    DropOk(s.runs, s.workers[w]);
    Shrinks(s, w, after);
    PutWorker(s, w, after);
    var t := WithWorker(s, w, after);
    forall v | v in t.workers ensures id !in Owned(t.workers[v]) {
      if v != w { CreatedApart(s.workers[v], s.workers[w]); }
    }
    EndKeeps(t, id, run);
  }

  lemma CycleStepKeepsRuns(s: State, step: Step, t: State)
    requires RunsOk(s) && Next(s, step, t)
    requires (step.BeginCycle? || step.EnqueueOne? || step.ClaimRuns? || step.CommitCycle?)
    ensures RunsOk(t)
  {
    hide RunsOk, Fits, NextRunAt, Fresh, HasActiveRun, Runnable, Claimable, MarkRunning, MoveAll, Enqueued;
    hide Claiming, Due;
    var w := step.w;
    match step {
      case BeginCycle(_, batch) =>
        BeginCycleFits(s, w, batch);
        PutWorker(s, w, t.workers[w]);
      case EnqueueOne(_, k, id) =>
        if HasActiveRun(s, s.workers[w], k) {
          SkipFits(s, w, k);
        } else {
          EnqueueFits(s, w, k, id, Move(s.clock, NextRunAt(s.schedules[k].rule, s.clock).value));
        }
        PutWorker(s, w, t.workers[w]);
      case ClaimRuns(_, batch) =>
        ClaimFits(s, w, batch);
        PutWorker(s, w, t.workers[w]);
      case CommitCycle(_) =>
        CommitKeeps(s, w);
        SchedulesDoNotMatter(s.(runs := t.runs, workers := t.workers), t);
    }
  }

  lemma SkipFits(s: State, w: WorkerId, k: ScheduleId)
    requires RunsOk(s) && w in s.workers
    ensures Fits(s, w, s.workers[w].(todo := s.workers[w].todo - {k}))
  {
    hide NoneCommitted, OneCommitted, WorkerApart;
    assert WorkerOk(s.runs, s.workers[w]);
    Shrinks(s, w, s.workers[w].(todo := s.workers[w].todo - {k}));
  }

  lemma SchedulesDoNotMatter(s: State, t: State)
    requires RunsOk(s) && t.runs == s.runs && t.workers == s.workers && t.requests.Keys <= s.requests.Keys
    ensures RunsOk(t)
  {
    hide WorkerOk, WorkerApart, NoneCommitted, OneCommitted;
  }

  lemma IdleIsOk(runs: map<RunId, Run>)
    ensures WorkerOk(runs, IDLE) && Owned(IDLE) == {}
  {
  }

  lemma DropFits(s: State, w: WorkerId)
    requires RunsOk(s) && w in s.workers
    ensures Fits(s, w, IDLE)
    ensures s.workers[w].current.Some? ==> Fits(s, w, s.workers[w].(current := None))
    ensures s.workers[w].phase.Executing? && s.workers[w].current.None? ==>
      forall id :: id in s.workers[w].left ==>
        Fits(s, w, s.workers[w].(left := s.workers[w].left - {id}, current := Some(id)))
  {
    hide WorkerOk, WorkerApart, NoneCommitted, OneCommitted, Fits;
    var worker := s.workers[w];
    assert WorkerOk(s.runs, worker);
    IdleIsOk(s.runs);
    Shrinks(s, w, IDLE);
    if worker.current.Some? {
      DropOk(s.runs, worker);
      Shrinks(s, w, worker.(current := None));
    } else if worker.phase.Executing? {
      forall id | id in worker.left ensures Fits(s, w, worker.(left := worker.left - {id}, current := Some(id))) {
        StartOk(s.runs, worker, id);
        Shrinks(s, w, worker.(left := worker.left - {id}, current := Some(id)));
      }
    }
  }

  lemma StepKeepsRuns(s: State, step: Step, t: State)
    requires RunsOk(s) && Next(s, step, t)
    ensures RunsOk(t)
  {
    hide RunsOk, Fits, NextRunAt, Fresh, HasActiveRun, Runnable, Claimable, MarkRunning, MoveAll, Enqueued;
    hide Claiming, Due;
    match step {
      case BeginCycle(_, _) => CycleStepKeepsRuns(s, step, t);
      case EnqueueOne(_, _, _) => CycleStepKeepsRuns(s, step, t);
      case ClaimRuns(_, _) => CycleStepKeepsRuns(s, step, t);
      case CommitCycle(_) => CycleStepKeepsRuns(s, step, t);
      case StartRun(w, _) =>
        DropFits(s, w);
        PutWorker(s, w, t.workers[w]);
      case FinishRun(w, outcome, nextRetryAt) =>
        var id := s.workers[w].current.value;
        FinishKeeps(s, w, s.runs[id].(status := outcome, nextRetryAt := nextRetryAt));
      case RollbackRun(w) =>
        DropFits(s, w);
        PutWorker(s, w, t.workers[w]);
      case EndCycle(w) =>
        DropFits(s, w);
        PutWorker(s, w, IDLE);
      case Crash(w) =>
        DropFits(s, w);
        PutWorker(s, w, IDLE);
      case RunNow(k, id) => RequestKeeps(s, k, id);
      case RunNowCommit(id, outcome, nextRetryAt) =>
        ManualKeeps(s, id, Run(Some(s.requests[id]), Manual, outcome, nextRetryAt));
      case _ => SchedulesDoNotMatter(s, t);
    }
  }

  lemma RequestKeeps(s: State, k: ScheduleId, id: RunId)
    requires RunsOk(s) && Fresh(s, id)
    ensures RunsOk(s.(requests := s.requests[id := k]))
  {
    hide WorkerOk, WorkerApart, NoneCommitted, OneCommitted;
  }

  // ---- Every step keeps the schedules' history ----

  lemma {:induction false} ChainLater(rule: Rule, setAt: Instant, firings: seq<Firing>, clock: Instant, later: Instant)
    requires ValidRule(rule) && ValidInstant(clock) && ValidInstant(later) && NotAfter(clock, later)
    requires Chain(rule, setAt, firings, clock)
    ensures Chain(rule, setAt, firings, later)
  {
    hide FirstAfter, Timeline, ValidInstant;
    if firings != [] { ChainLater(rule, setAt, firings[..|firings| - 1], clock, later); }
  }

  lemma HistoryLater(schedule: Schedule, clock: Instant, later: Instant)
    requires HistoryOk(schedule, clock) && ValidInstant(later) && NotAfter(clock, later)
    ensures HistoryOk(schedule, later)
  {
    hide FirstAfter, Timeline, Chain;
    ChainLater(schedule.rule, schedule.setAt, schedule.firings, clock, later);
  }

  lemma EditedOk(s: State, rule: Rule, isActive: bool, at: Instant, cleared: bool)
    requires EditTime(s, rule, at)
    ensures HistoryOk(Edited(rule, isActive, if cleared then None else Some(NextRunAt(rule, at).value), at), s.clock)
  {
    hide FirstAfter, Timeline, NextRunAt;
    NextRunAtIsFirstAfter(rule, at);
  }

  lemma AdvancedOk(schedule: Schedule, m: Move, clock: Instant)
    requires HistoryOk(schedule, clock) && MoveOk(schedule, m, clock)
    ensures HistoryOk(Advanced(schedule, m), clock)
  {
    hide FirstAfter, Timeline;
    var after := Advanced(schedule, m);
    assert after.firings[..|after.firings| - 1] == schedule.firings;
  }

  /** A worker's locked schedules stay due, and its moves stay right. */
  ghost predicate LocksOk(schedules: map<ScheduleId, Schedule>, w: Worker, clock: Instant)
    requires ValidInstant(clock)
  {
    && (forall k :: k in w.locked ==> k in schedules && Due(schedules[k], clock))
    && (forall k :: k in w.moved ==> k in schedules && MoveOk(schedules[k], w.moved[k], clock))
  }

  ghost predicate HistoriesOk(schedules: map<ScheduleId, Schedule>, clock: Instant)
    requires ValidInstant(clock)
  {
    forall k :: k in schedules ==> HistoryOk(schedules[k], clock)
  }

  lemma TickKeeps(s: State, now: Instant)
    requires SchedulesOk(s) && ValidInstant(now) && NotAfter(s.clock, now)
    ensures SchedulesOk(s.(clock := now))
  {
    hide HistoryOk, FirstAfter, Timeline;
    forall k | k in s.schedules ensures HistoryOk(s.schedules[k], now) { HistoryLater(s.schedules[k], s.clock, now); }
  }

  lemma LocksLast(s: State, w: WorkerId, schedules: map<ScheduleId, Schedule>)
    requires SchedulesOk(s) && w in s.workers
    requires forall k :: k in s.workers[w].locked || k in s.workers[w].moved ==>
      k in schedules && k in s.schedules && schedules[k] == s.schedules[k]
    ensures LocksOk(schedules, s.workers[w], s.clock)
  {
    hide HistoryOk, MoveOk, Due;
  }

  lemma CommitKeepsHistories(s: State, w: WorkerId)
    requires SchedulesOk(s) && w in s.workers
    ensures HistoriesOk(MoveAll(s.schedules, s.workers[w].moved), s.clock)
  {
    hide HistoryOk, MoveOk, Advanced, Due;
    var moved := s.workers[w].moved;
    forall k | k in s.schedules ensures HistoryOk(MoveAll(s.schedules, moved)[k], s.clock) {
      if k in moved { AdvancedOk(s.schedules[k], moved[k], s.clock); }
    }
  }

  lemma LockedExist(s: State, v: WorkerId)
    requires SchedulesOk(s) && v in s.workers
    ensures forall k :: k in s.workers[v].locked ==> k in s.schedules
  {
    hide HistoryOk, MoveOk, Due;
  }

  lemma CommitKeepsLocks(s: State, w: WorkerId, v: WorkerId)
    requires WorkersOk(s) && Apart(s) && SchedulesOk(s) && w in s.workers && v in s.workers && v != w
    ensures LocksOk(MoveAll(s.schedules, s.workers[w].moved), s.workers[v], s.clock)
  {
    hide SchedulesOk, Owned, CreatedOk, OwnedOk, Advanced, LocksOk;
    assert WorkerOk(s.runs, s.workers[w]) && WorkerOk(s.runs, s.workers[v]);
    assert WorkerApart(s.workers[v], s.workers[w]);
    LockedExist(s, v);
    LocksLast(s, v, MoveAll(s.schedules, s.workers[w].moved));
  }

  lemma CommitKeepsSchedules(s: State, w: WorkerId, t: State)
    requires RunsOk(s) && SchedulesOk(s) && Next(s, CommitCycle(w), t)
    ensures SchedulesOk(t)
  {
    hide HistoryOk, MoveOk, Due, MoveAll, WorkersOk, Apart, OneActive, NewIds, MarkRunning;
    CommitKeepsHistories(s, w);
    forall v | v in t.workers ensures LocksOk(t.schedules, t.workers[v], t.clock) {
      if v != w { CommitKeepsLocks(s, w, v); }
    }
  }

  lemma EditKeepsSchedules(s: State, k: ScheduleId, schedule: Schedule)
    requires RunsOk(s) && SchedulesOk(s) && !ScheduleLocked(s, k) && HistoryOk(schedule, s.clock)
    ensures SchedulesOk(s.(schedules := s.schedules[k := schedule]))
  {
    hide HistoryOk, MoveOk, Due, CreatedOk, OwnedOk, OneActive, NewIds, Apart;
    var t := s.(schedules := s.schedules[k := schedule]);
    forall v | v in t.workers ensures LocksOk(t.schedules, t.workers[v], t.clock) {
      assert WorkerOk(s.runs, s.workers[v]);
      LocksLast(s, v, t.schedules);
    }
  }

  lemma WorkerKeepsSchedules(s: State, w: WorkerId, worker: Worker)
    requires SchedulesOk(s) && LocksOk(s.schedules, worker, s.clock)
    ensures SchedulesOk(WithWorker(s, w, worker))
  {
    hide HistoryOk, MoveOk, Due;
  }

  lemma MoveComputed(schedule: Schedule, clock: Instant)
    requires HistoryOk(schedule, clock) && Due(schedule, clock) && NextRunAt(schedule.rule, clock).Ok?
    ensures MoveOk(schedule, Move(clock, NextRunAt(schedule.rule, clock).value), clock)
  {
    hide FirstAfter, Timeline, NextRunAt, Chain;
    NextRunAtIsFirstAfter(schedule.rule, clock);
  }

  lemma LocksOf(s: State, w: WorkerId)
    requires SchedulesOk(s) && w in s.workers
    ensures LocksOk(s.schedules, s.workers[w], s.clock)
  {
    hide HistoryOk, MoveOk, Due;
  }

  lemma NewIsUnlocked(s: State, k: ScheduleId)
    requires SchedulesOk(s) && k !in s.schedules
    ensures !ScheduleLocked(s, k)
  {
    hide HistoryOk, MoveOk, Due;
  }

  lemma EditStepKeepsSchedules(s: State, step: Step, t: State)
    requires RunsOk(s) && SchedulesOk(s) && Next(s, step, t)
    requires step.CreateSchedule? || step.PatchSchedule? || step.ToggleSchedule?
    ensures SchedulesOk(t)
  {
    hide SchedulesOk, HistoryOk, RunsOk, NextRunAt, Edited;
    var k := step.k;
    match step {
      case CreateSchedule(_, rule, isActive, at) =>
        EditedOk(s, rule, isActive, at, false);
        NewIsUnlocked(s, k);
      case PatchSchedule(_, rule, isActive, at) => EditedOk(s, rule, isActive, at, false);
      case ToggleSchedule(_, at) =>
        EditedOk(s, s.schedules[k].rule, !s.schedules[k].isActive, at, s.schedules[k].isActive);
    }
    EditKeepsSchedules(s, k, t.schedules[k]);
  }

  lemma EnqueuedLocks(s: State, worker: Worker, k: ScheduleId, id: RunId, m: Move)
    requires ValidInstant(s.clock) && LocksOk(s.schedules, worker, s.clock) && k in s.schedules
    requires MoveOk(s.schedules[k], m, s.clock)
    ensures LocksOk(s.schedules, Enqueued(worker, k, id, m), s.clock)
  {
    hide MoveOk, Due;
  }

  lemma SameLocks(s: State, worker: Worker, after: Worker)
    requires ValidInstant(s.clock) && LocksOk(s.schedules, worker, s.clock)
    requires after.locked == worker.locked && after.moved == worker.moved
    ensures LocksOk(s.schedules, after, s.clock)
  {
    hide MoveOk, Due;
  }

  lemma EnqueueKeepsSchedules(s: State, w: WorkerId, k: ScheduleId, id: RunId, t: State)
    requires RunsOk(s) && SchedulesOk(s) && Next(s, EnqueueOne(w, k, id), t)
    ensures SchedulesOk(t)
  {
    hide HistoryOk, MoveOk, Due, NextRunAt, HasActiveRun, Fresh, Apart, NewIds, OneActive, CreatedOk, OwnedOk;
    hide LocksOk, Enqueued;
    LocksOf(s, w);
    assert WorkerOk(s.runs, s.workers[w]);
    if HasActiveRun(s, s.workers[w], k) {
      SameLocks(s, s.workers[w], t.workers[w]);
    } else {
      MoveComputed(s.schedules[k], s.clock);
      EnqueuedLocks(s, s.workers[w], k, id, Move(s.clock, NextRunAt(s.schedules[k].rule, s.clock).value));
    }
    WorkerKeepsSchedules(s, w, t.workers[w]);
  }

  /** The worker keeps no more locks and moves than it had. */
  lemma SameLocksKeepSchedules(s: State, w: WorkerId, t: State)
    requires SchedulesOk(s) && w in s.workers && w in t.workers
    requires t.workers[w].locked <= s.workers[w].locked
    requires t.workers[w].moved == s.workers[w].moved || t.workers[w].moved == map[]
    requires t.schedules == s.schedules && t.clock == s.clock && t.workers == s.workers[w := t.workers[w]]
    ensures SchedulesOk(t)
  {
    hide HistoryOk, MoveOk, Due;
  }

  lemma StepKeepsSchedules(s: State, step: Step, t: State)
    requires RunsOk(s) && SchedulesOk(s) && Next(s, step, t)
    ensures SchedulesOk(t)
  {
    hide SchedulesOk, RunsOk, NextRunAt, Fresh, HasActiveRun, Claimable, MarkRunning, MoveAll, Due, EditTime;
    hide ScheduleLocked;
    hide Enqueued, Edited;
    match step {
      case Tick(now) => TickKeeps(s, now);
      case BeginCycle(w, batch) => WorkerKeepsSchedules(s, w, t.workers[w]);
      case EnqueueOne(w, k, id) => EnqueueKeepsSchedules(s, w, k, id, t);
      case ClaimRuns(w, _) => SameLocksKeepSchedules(s, w, t);
      case CommitCycle(w) => CommitKeepsSchedules(s, w, t);
      case StartRun(w, _) => SameLocksKeepSchedules(s, w, t);
      case FinishRun(w, _, _) => SameLocksKeepSchedules(s, w, t);
      case RollbackRun(w) => SameLocksKeepSchedules(s, w, t);
      case EndCycle(w) => SameLocksKeepSchedules(s, w, t);
      case Crash(w) => SameLocksKeepSchedules(s, w, t);
      case CreateSchedule(_, _, _, _) => EditStepKeepsSchedules(s, step, t);
      case PatchSchedule(_, _, _, _) => EditStepKeepsSchedules(s, step, t);
      case ToggleSchedule(_, _) => EditStepKeepsSchedules(s, step, t);
      case _ => OnlySchedulesMatter(s, t);
    }
  }

  lemma OnlySchedulesMatter(s: State, t: State)
    requires SchedulesOk(s) && t.schedules == s.schedules && t.workers == s.workers && t.clock == s.clock
    ensures SchedulesOk(t)
  {
    hide HistoryOk, MoveOk, Due;
  }

  // ---- Every step keeps the owned runs due ----

  lemma LaterStillDue(s: State, now: Instant)
    requires OwnedDue(s) && ValidInstant(s.clock) && ValidInstant(now) && NotAfter(s.clock, now)
    ensures OwnedDue(s.(clock := now))
  {
    hide ValidInstant, Timeline, Owned;
    forall w | w in s.workers ensures OwnsDue(s.runs, s.workers[w], now) {
      assert OwnsDue(s.runs, s.workers[w], s.clock);
    }
  }

  /** A worker that owns no more runs and has the same ones created, or none. */
  lemma FewerStillDue(s: State, w: WorkerId, worker: Worker)
    requires OwnedDue(s) && w in s.workers && Owned(worker) <= Owned(s.workers[w])
    requires forall id :: id in worker.created && id in Owned(worker) ==>
      id in s.workers[w].created && worker.created[id].nextRetryAt == s.workers[w].created[id].nextRetryAt
    ensures OwnedDue(WithWorker(s, w, worker))
  {
    hide ValidInstant, Timeline, Owned;
    assert OwnsDue(s.runs, s.workers[w], s.clock);
  }

  lemma ClaimedAreDue(s: State, w: WorkerId, batch: set<RunId>)
    requires ValidInstant(s.clock) && w in s.workers && s.workers[w].phase.Enqueuing? && WorkersOk(s) && NewIds(s)
    requires Claimable(s, s.workers[w], batch)
    ensures OwnsDue(s.runs, Claiming(s.workers[w], batch), s.clock)
  {
    hide Timeline, ValidInstant, CreatedOk, RunLocked;
    assert WorkerOk(s.runs, s.workers[w]);
    assert Owned(Claiming(s.workers[w], batch)) == batch;
  }

  lemma PutStillDue(s: State, w: WorkerId, worker: Worker)
    requires OwnedDue(s) && OwnsDue(s.runs, worker, s.clock)
    ensures OwnedDue(WithWorker(s, w, worker))
  {
    hide OwnsDue;
  }

  /** Runs that no worker owns may change. */
  lemma OthersStillDue(s: State, runs: map<RunId, Run>)
    requires OwnedDue(s)
    requires forall w, id :: w in s.workers && id in Owned(s.workers[w]) && id in runs ==>
      id in s.runs && runs[id].nextRetryAt == s.runs[id].nextRetryAt
    ensures OwnedDue(s.(runs := runs))
  {
    hide Owned, ValidInstant, Timeline;
    forall w | w in s.workers ensures OwnsDue(runs, s.workers[w], s.clock) {
      assert OwnsDue(s.runs, s.workers[w], s.clock);
    }
  }

  lemma EnqueueKeepsDue(s: State, w: WorkerId, k: ScheduleId, id: RunId, m: Move)
    requires OwnedDue(s) && RunsOk(s) && w in s.workers && Fresh(s, id) && s.workers[w].phase.Enqueuing?
    ensures OwnedDue(WithWorker(s, w, Enqueued(s.workers[w], k, id, m)))
  {
    hide ValidInstant, Timeline, OwnsDue, NoneCommitted, CreatedOk, WorkerApart;
    assert WorkerOk(s.runs, s.workers[w]);
    assert Owned(Enqueued(s.workers[w], k, id, m)) == {};
    FewerStillDue(s, w, Enqueued(s.workers[w], k, id, m));
  }

  lemma CommitKeepsDue(s: State, w: WorkerId)
    requires OwnedDue(s) && RunsOk(s) && w in s.workers && s.workers[w].phase.Claimed?
    ensures var worker := s.workers[w];
      OwnedDue(s.(runs := CommittedRuns(s, worker),
                  workers := s.workers[w := IDLE.(phase := Executing, left := worker.claimed)]))
  {
    hide ValidInstant, Timeline, NoneCommitted, OneCommitted, WorkerOk, OwnsDue;
    var worker, after := s.workers[w], IDLE.(phase := Executing, left := s.workers[w].claimed);
    var runs := CommittedRuns(s, worker);
    DueAfterCommit(s.runs, worker, s.clock);
    forall v | v in s.workers && v != w ensures OwnsDue(runs, s.workers[v], s.clock) {
      BesideCommitDue(s, w, v);
    }
  }

  lemma RetriesAfterCommit(runs: map<RunId, Run>, worker: Worker)
    ensures var after := MarkRunning(runs, worker.claimed) + worker.created;
      forall id :: id in after ==>
        after[id].nextRetryAt == if id in worker.created then worker.created[id].nextRetryAt else runs[id].nextRetryAt
  {
  }

  lemma DueAfterCommit(runs: map<RunId, Run>, worker: Worker, now: Instant)
    requires OwnsDue(runs, worker, now)
    ensures OwnsDue(MarkRunning(runs, worker.claimed) + worker.created,
      IDLE.(phase := Executing, left := worker.claimed), now)
  {
    hide ValidInstant, Timeline;
    RetriesAfterCommit(runs, worker);
    OwnedAfterCommit(worker);
  }

  lemma BesideCommitDue(s: State, w: WorkerId, v: WorkerId)
    requires OwnedDue(s) && RunsOk(s) && w in s.workers && v in s.workers && v != w
    ensures OwnsDue(CommittedRuns(s, s.workers[w]), s.workers[v], s.clock)
  {
    hide ValidInstant, Timeline, NoneCommitted, OneCommitted, CreatedOk, PhaseOk, MarkRunning;
    RetriesAfterCommit(s.runs, s.workers[w]);
    assert OwnsDue(s.runs, s.workers[v], s.clock) && WorkerApart(s.workers[v], s.workers[w]);
    assert WorkerOk(s.runs, s.workers[v]);
  }

  lemma FinishKeepsDue(s: State, w: WorkerId, run: Run)
    requires OwnedDue(s) && RunsOk(s) && w in s.workers && s.workers[w].current.Some?
    requires s.workers[w].current.value in s.runs
    ensures var id := s.workers[w].current.value;
      OwnedDue(WithWorker(s, w, s.workers[w].(current := None)).(runs := s.runs[id := run]))
  {
    hide ValidInstant, Timeline, NoneCommitted, OneCommitted, CreatedOk, OwnsDue, WorkerApart, PhaseOk, OwnedOk, Owned;
    var id, after := s.workers[w].current.value, s.workers[w].(current := None);
    assert WorkerOk(s.runs, s.workers[w]);
    DropOk(s.runs, s.workers[w]);
    FewerStillDue(s, w, after);
    var t := WithWorker(s, w, after);
    forall v | v in t.workers ensures id !in Owned(t.workers[v]) {
      if v != w { CreatedApart(s.workers[v], s.workers[w]); }
    }
    OthersStillDue(t, s.runs[id := run]);
  }

  lemma ManualKeepsDue(s: State, id: RunId, run: Run)
    requires OwnedDue(s) && RunsOk(s) && id in s.requests
    ensures OwnedDue(s.(requests := s.requests - {id}, runs := s.runs[id := run]))
  {
    hide ValidInstant, Timeline, NoneCommitted, OneCommitted, CreatedOk, OwnsDue, WorkerApart, PhaseOk;
    forall w | w in s.workers ensures id !in Owned(s.workers[w]) {
      assert WorkerOk(s.runs, s.workers[w]);
    }
    OthersStillDue(s, s.runs[id := run]);
    OnlyOwnersMatter(s.(runs := s.runs[id := run]), s.(requests := s.requests - {id}, runs := s.runs[id := run]));
  }

  lemma OnlyOwnersMatter(s: State, t: State)
    requires OwnedDue(s) && t.runs == s.runs && t.workers == s.workers && t.clock == s.clock
    ensures OwnedDue(t)
  {
    hide OwnsDue;
  }

  lemma ShrinkStepKeepsDue(s: State, step: Step, t: State)
    requires RunsOk(s) && OwnedDue(s) && Next(s, step, t)
    requires step.BeginCycle? || step.StartRun? || step.RollbackRun? || step.EndCycle? || step.Crash?
    ensures OwnedDue(t)
  {
    hide OwnedDue, RunsOk, NextRunAt, Due, ScheduleLocked;
    FewerStillDue(s, step.w, t.workers[step.w]);
  }

  lemma StepKeepsDue(s: State, step: Step, t: State)
    requires RunsOk(s) && OwnedDue(s) && Next(s, step, t)
    ensures OwnedDue(t)
  {
    hide OwnedDue, RunsOk, NextRunAt, Fresh, HasActiveRun, Claimable, MarkRunning, MoveAll, Due, EditTime;
    hide ScheduleLocked, Enqueued, Edited, Claiming, OwnsDue;
    match step {
      case Tick(now) => LaterStillDue(s, now);
      case BeginCycle(_, _) => ShrinkStepKeepsDue(s, step, t);
      case EnqueueOne(w, k, id) =>
        if HasActiveRun(s, s.workers[w], k) {
          FewerStillDue(s, w, t.workers[w]);
        } else {
          EnqueueKeepsDue(s, w, k, id, Move(s.clock, NextRunAt(s.schedules[k].rule, s.clock).value));
        }
      case ClaimRuns(w, batch) =>
        RunsParts(s);
        ClaimedAreDue(s, w, batch);
        PutStillDue(s, w, t.workers[w]);
      case CommitCycle(w) =>
        CommitKeepsDue(s, w);
        OnlyOwnersMatter(s.(runs := t.runs, workers := t.workers), t);
      case StartRun(_, _) => ShrinkStepKeepsDue(s, step, t);
      case FinishRun(w, outcome, nextRetryAt) =>
        var id := s.workers[w].current.value;
        FinishKeepsDue(s, w, s.runs[id].(status := outcome, nextRetryAt := nextRetryAt));
      case RollbackRun(_) => ShrinkStepKeepsDue(s, step, t);
      case EndCycle(_) => ShrinkStepKeepsDue(s, step, t);
      case Crash(_) => ShrinkStepKeepsDue(s, step, t);
      case RunNowCommit(id, outcome, nextRetryAt) =>
        ManualKeepsDue(s, id, Run(Some(s.requests[id]), Manual, outcome, nextRetryAt));
      case _ => OnlyOwnersMatter(s, t);
    }
  }

  lemma RunsParts(s: State)
    requires RunsOk(s)
    ensures WorkersOk(s) && Apart(s) && NewIds(s) && OneActive(s)
  {
  }

  // ---- Main results ----

  lemma InitHolds(s: State)
    requires Init(s)
    ensures Inv(s)
  {
  }

  lemma StepKeepsInv(s: State, step: Step, t: State)
    requires Inv(s) && Next(s, step, t)
    ensures Inv(t)
  {
    hide WorkersOk, Apart, NewIds, OneActive, SchedulesOk, OwnedDue, Next;
    StepKeepsRuns(s, step, t);
    StepKeepsSchedules(s, step, t);
    StepKeepsDue(s, step, t);
  }

  lemma {:induction false} PathKeepsInv(states: seq<State>, steps: seq<Step>, i: nat)
    requires Path(states, steps) && Inv(states[0]) && i <= |steps|
    ensures Inv(states[i])
  {
    hide Inv, Next;
    if i > 0 {
      PathKeepsInv(states, steps, i - 1);
      StepKeepsInv(states[i - 1], steps[i - 1], states[i]);
    }
  }

  lemma AlwaysInv(states: seq<State>, steps: seq<Step>, i: nat)
    requires Behaviour(states, steps) && i < |states|
    ensures Inv(states[i])
  {
    hide Inv, Init, Next;
    InitHolds(states[0]);
    PathKeepsInv(states, steps, i);
  }

  /** The enqueue step created the run, committed or still in an open transaction, and it is
      queued or running. */
  ghost predicate ActiveAnywhere(s: State, id: RunId, k: ScheduleId) {
    || (id in s.runs && ActiveScheduled(s.runs[id], k))
    || (exists w :: w in s.workers && id in s.workers[w].created && ActiveScheduled(s.workers[w].created[id], k))
  }

  /** Whatever workers, requests and crashes do, a schedule never has two active runs that the
      enqueue step created. */
  lemma AtMostOneActiveRun(states: seq<State>, steps: seq<Step>, i: nat, k: ScheduleId, a: RunId, b: RunId)
    requires Behaviour(states, steps) && i < |states|
    requires ActiveAnywhere(states[i], a, k) && ActiveAnywhere(states[i], b, k)
    ensures a == b
  {
    hide Behaviour, SchedulesOk, Owned, NewIds, WorkersOk, NoneCommitted;
    var s := states[i];
    AlwaysInv(states, steps, i);
    if a !in s.runs || !ActiveScheduled(s.runs[a], k) {
      var v := CreatorOf(s, a, k);
      var w := CreatorOf(s, b, k);
      LockedOnce(s, k);
    } else if b !in s.runs || !ActiveScheduled(s.runs[b], k) {
      var w := CreatorOf(s, b, k);
    }
  }

  lemma LockedOnce(s: State, k: ScheduleId)
    requires Apart(s)
    ensures forall v, w :: v in s.workers && w in s.workers && k in s.workers[v].locked && k in s.workers[w].locked ==>
      v == w
  {
  }

  lemma CreatorOf(s: State, id: RunId, k: ScheduleId) returns (w: WorkerId)
    requires Inv(s) && ActiveAnywhere(s, id, k) && !(id in s.runs && ActiveScheduled(s.runs[id], k))
    ensures w in s.workers && WorkerOk(s.runs, s.workers[w]) && id in s.workers[w].created
    ensures s.workers[w].created[id].schedule == Some(k) && k in s.workers[w].locked
    ensures forall a :: a in s.runs ==> !ActiveScheduled(s.runs[a], k)
  {
    hide SchedulesOk, Apart, NewIds, OneCommitted;
    w :| w in s.workers && id in s.workers[w].created && ActiveScheduled(s.workers[w].created[id], k);
    assert WorkerOk(s.runs, s.workers[w]) && NoneCommitted(s.runs, s.workers[w]);
    assert k in s.workers[w].moved;
  }

  /** No run is being executed by two workers, or by a worker and a request; and while a
      worker executes a run, its committed status is running, so that nobody can claim it. */
  lemma ExecutedByOne(states: seq<State>, steps: seq<Step>, i: nat, v: WorkerId, id: RunId)
    requires Behaviour(states, steps) && i < |states|
    requires v in states[i].workers && states[i].workers[v].current == Some(id)
    ensures id in states[i].runs && states[i].runs[id].status.Running? && id !in states[i].requests
    ensures forall w :: w in states[i].workers && w != v ==> id !in Owned(states[i].workers[w])
  {
    hide Behaviour, SchedulesOk, OneActive, CreatedOk;
    var s := states[i];
    AlwaysInv(states, steps, i);
    assert WorkerOk(s.runs, s.workers[v]);
    forall w | w in s.workers && w != v ensures id !in Owned(s.workers[w]) {
      CreatedApart(s.workers[v], s.workers[w]);
    }
  }

  /** Nobody takes up a run that is still to wait for its retry: whatever a worker has claimed,
      has left to execute or is executing, its retry time has come. */
  lemma OwnedRunsAreDue(states: seq<State>, steps: seq<Step>, i: nat, w: WorkerId, id: RunId)
    requires Behaviour(states, steps) && i < |states|
    requires w in states[i].workers && id in Owned(states[i].workers[w])
    ensures var s, worker := states[i], states[i].workers[w];
      && ValidInstant(s.clock) && (id in s.runs || id in worker.created)
      && var run := if id in s.runs then s.runs[id] else worker.created[id];
      && (run.nextRetryAt.Some? ==>
            ValidInstant(run.nextRetryAt.value) && Timeline(run.nextRetryAt.value) <= Timeline(s.clock))
  {
    hide Behaviour, OneActive, Apart, HistoryOk, MoveOk, Due, Timeline, ValidInstant;
    var s := states[i];
    AlwaysInv(states, steps, i);
    assert WorkerOk(s.runs, s.workers[w]) && OwnsDue(s.runs, s.workers[w], s.clock);
  }

  /** A run is enqueued only for a schedule that is active and whose next run has come. */
  lemma OnlyDueAreEnqueued(states: seq<State>, steps: seq<Step>, i: nat, w: WorkerId, k: ScheduleId, id: RunId)
    requires Behaviour(states, steps) && i < |steps| && steps[i] == EnqueueOne(w, k, id)
    requires w in states[i].workers && w in states[i + 1].workers
    requires states[i + 1].workers[w].created != states[i].workers[w].created
    ensures k in states[i].schedules && ValidInstant(states[i].clock)
    ensures var schedule := states[i].schedules[k];
      && schedule.isActive && schedule.nextRunAt.Some? && ValidInstant(schedule.nextRunAt.value)
      && Timeline(schedule.nextRunAt.value) <= Timeline(states[i].clock)
  {
    hide Behaviour, RunsOk, Apart, NewIds, OneActive, OwnedDue, HistoryOk, MoveOk, Timeline, ValidInstant, NextRunAt;
    hide HasActiveRun, Fresh;
    StepTaken(states, steps, i);
    var s := states[i];
    AlwaysInv(states, steps, i);
    assert WorkerOk(s.runs, s.workers[w]) && k in s.workers[w].locked;
  }

  lemma StepTaken(states: seq<State>, steps: seq<Step>, i: nat)
    requires Behaviour(states, steps) && i < |steps|
    ensures |states| == |steps| + 1 && Next(states[i], steps[i], states[i + 1])
  {
    hide Next;
  }

  /** Publishing a cycle publishes its runs together with the new next runs: each schedule it
      enqueued for has fired once more, for the occurrence that was due, and waits for the first
      occurrence after; the other schedules stay as they were. */
  lemma CommitAdvances(s: State, w: WorkerId, t: State, k: ScheduleId)
    requires Inv(s) && Next(s, CommitCycle(w), t) && k in s.schedules
    ensures k in t.schedules
    ensures var worker, before, after := s.workers[w], s.schedules[k], t.schedules[k];
      if k !in worker.moved then after == before
      else
        && before.nextRunAt.Some? && after.nextRunAt.Some?
        && ValidRule(before.rule) && ValidInstant(worker.moved[k].at)
        && FirstAfter(before.rule, worker.moved[k].at, after.nextRunAt.value)
        && after.firings == before.firings + [Firing(before.nextRunAt.value, worker.moved[k].at)]
        && after.rule == before.rule && after.isActive == before.isActive && after.setAt == before.setAt
    ensures forall id :: id in s.workers[w].created ==>
      && id !in s.runs && id in t.runs && t.runs[id] == s.workers[w].created[id]
      && s.workers[w].created[id].schedule.Some? && s.workers[w].created[id].schedule.value in s.workers[w].moved
  {
    hide Apart, OneActive, OwnedDue, HistoryOk, Timeline, ValidInstant, FirstAfter, PhaseOk, OwnedOk;
    assert WorkerOk(s.runs, s.workers[w]);
    if k in s.workers[w].moved { assert MoveOk(s.schedules[k], s.workers[w].moved[k], s.clock); }
  }

  /** An edit stores the rule and the switch it was given, waits for the first occurrence after
      it, or for none once switched off, and leaves the other schedules, the runs and the
      workers alone. */
  lemma EditMeans(s: State, step: Step, t: State)
    requires Next(s, step, t) && (step.CreateSchedule? || step.PatchSchedule? || step.ToggleSchedule?)
    ensures t.schedules.Keys == s.schedules.Keys + {step.k} && t.runs == s.runs && t.workers == s.workers
    ensures forall other :: other in s.schedules && other != step.k ==> t.schedules[other] == s.schedules[other]
    ensures var after := t.schedules[step.k];
      && ValidRule(after.rule) && ValidInstant(step.at) && after.setAt == step.at && after.firings == []
      && (after.nextRunAt.Some? ==> FirstAfter(after.rule, step.at, after.nextRunAt.value))
      && (if step.ToggleSchedule? then
            && after.rule == s.schedules[step.k].rule && after.isActive == !s.schedules[step.k].isActive
            && (after.nextRunAt.Some? <==> after.isActive)
          else after.rule == step.rule && after.isActive == step.isActive && after.nextRunAt.Some?)
  {
    hide NextRunAt, FirstAfter, Timeline;
    NextRunAtIsFirstAfter(t.schedules[step.k].rule, step.at);
  }

  // ---- Firings and occurrences ----

  function Dues(firings: seq<Firing>): set<Instant> {
    set f | f in firings :: f.due
  }

  lemma {:induction false} ChainedDues(rule: Rule, setAt: Instant, firings: seq<Firing>, clock: Instant)
    requires ValidRule(rule) && ValidInstant(clock) && Chain(rule, setAt, firings, clock)
    ensures |Dues(firings)| == |firings| && ValidInstant(setAt)
    ensures ValidInstant(LastTime(setAt, firings)) && NotAfter(LastTime(setAt, firings), clock)
    ensures NotAfter(setAt, LastTime(setAt, firings))
    ensures forall t :: t in Dues(firings) ==>
      Occurs(rule, t) && Earlier(setAt, t) && NotAfter(t, LastTime(setAt, firings))
  {
    hide Timeline, ValidInstant, OccursOn, ValidRule;
    if firings != [] {
      var init, last := firings[..|firings| - 1], firings[|firings| - 1];
      ChainedDues(rule, setAt, init, clock);
      assert firings == init + [last];
      assert Dues(firings) == Dues(init) + {last.due};
      assert last.due !in Dues(init);
    } else {
      assert Dues(firings) == {};
    }
  }

  lemma {:induction false} SubsetSize<T>(a: set<T>, b: set<T>)
    requires a <= b
    ensures |a| <= |b|
  {
    if a != {} {
      var x :| x in a;
      SubsetSize(a - {x}, b - {x});
    }
  }

  /** Since a schedule was last edited, no more runs were enqueued for it than occurrences of
      its calendar rule have passed. */
  lemma FiringsWithinOccurrences(states: seq<State>, steps: seq<Step>, i: nat, k: ScheduleId, passed: set<Instant>)
    requires Behaviour(states, steps) && i < |states| && k in states[i].schedules
    requires ValidRule(states[i].schedules[k].rule) && ValidInstant(states[i].schedules[k].setAt)
    requires ValidInstant(states[i].clock)
    requires var schedule := states[i].schedules[k];
      forall t :: Occurs(schedule.rule, t) && Earlier(schedule.setAt, t) && NotAfter(t, states[i].clock) ==> t in passed
    ensures |states[i].schedules[k].firings| <= |passed|
  {
    hide Behaviour, RunsOk, WorkersOk, Apart, NewIds, OneActive, Timeline, ValidInstant, Occurs, FirstAfter;
    AlwaysInv(states, steps, i);
    var schedule := states[i].schedules[k];
    assert HistoryOk(schedule, states[i].clock);
    ChainedDues(schedule.rule, schedule.setAt, schedule.firings, states[i].clock);
    SubsetSize(Dues(schedule.firings), passed);
  }

  lemma OccursValid(rule: Rule, t: Instant)
    requires ValidRule(rule) && Occurs(rule, t)
    ensures ValidInstant(t)
  {
  }

  /** Occurrences missed while the workers were away collapse into one run: enqueueing moves the
      schedule past the present, to an occurrence with none between. */
  lemma MissedOccurrencesCollapse(states: seq<State>, steps: seq<Step>, i: nat, w: WorkerId, k: ScheduleId, id: RunId,
    t: Instant)
    requires Behaviour(states, steps) && i < |steps| && steps[i] == EnqueueOne(w, k, id)
    requires w in states[i].workers && !HasActiveRun(states[i], states[i].workers[w], k)
    requires k in states[i].schedules
    requires ValidRule(states[i].schedules[k].rule) && ValidInstant(states[i].clock)
    ensures var s, u := states[i], states[i + 1];
      && u.workers[w].created.Keys == s.workers[w].created.Keys + {id} && id !in s.workers[w].created
      && u.workers[w].created[id].schedule == Some(k)
      && k in u.workers[w].moved
      && (Occurs(s.schedules[k].rule, t) && Earlier(s.clock, t) ==>
            ValidInstant(u.workers[w].moved[k].next) && NotAfter(u.workers[w].moved[k].next, t))
      && ValidInstant(u.workers[w].moved[k].next) && Earlier(s.clock, u.workers[w].moved[k].next)
  {
    hide Timeline, Occurs, NextRunAt, HasActiveRun;
    var s := states[i];
    assert Next(s, steps[i], states[i + 1]);
    NextRunAtIsFirstAfter(s.schedules[k].rule, s.clock);
    OccursValid(s.schedules[k].rule, states[i + 1].workers[w].moved[k].next);
  }
}
