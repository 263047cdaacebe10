/** A run enqueued in the protocol and the row it is: every execution that a worker finishes in
    it is one of the row's life, so that what holds of lives holds in the protocol. */
module RunLives {
  import opened Wrappers
  import opened Calendar
  import opened NextRun
  import opened RunStatus
  import opened SchedulerProtocol
  import R = ReportExecution

  /** The row, its executions in order, and how many of them are finished in each state. */
  datatype Account = Account(rows: seq<R.RunRow>, executions: seq<R.Execution>, finished: seq<nat>)

  /** The protocol sees of a row its status and its retry time; being claimed changes neither. */
  ghost predicate Shows(run: Run, row: R.RunRow) {
    && row.status == (if run.status.Running? then Queued else run.status)
    && (run.nextRetryAt.None? <==> row.nextRetryAt.None?)
    && (run.nextRetryAt.Some? ==>
          ValidInstant(run.nextRetryAt.value) && row.nextRetryAt == Some(Timeline(run.nextRetryAt.value)))
  }

  ghost predicate Finishes(s: State, step: Step, id: RunId) {
    step.FinishRun? && step.w in s.workers && s.workers[step.w].current == Some(id)
  }

  predicate Creates(step: Step, id: RunId) {
    (step.EnqueueOne? || step.RunNow?) && step.id == id
  }

  /** Each row follows from the one before by an execution. */
  ghost predicate Computed(a: Account) {
    && |a.rows| == |a.executions| + 1
    && forall n :: 0 <= n < |a.executions| ==>
        && |a.executions[n].recipients| == |a.executions[n].sendings|
        && a.executions[n].ticks.start <= a.executions[n].ticks.end <= a.executions[n].ticks.logged
            <= a.executions[n].ticks.retry
        && a.rows[n + 1] == R.After(a.rows[n], a.executions[n])
  }

  /** Step j finishes the next execution or none; what is finished is stored; an execution reads
      its clock after the worker starts it. */
  ghost predicate Follows(s: State, step: Step, a: Account, id: RunId, n: nat, after: nat) {
    && ValidInstant(s.clock) && |a.rows| == |a.executions| + 1
    && (if Finishes(s, step, id) then
          && after == n + 1 <= |a.executions|
          && Shows(Run(None, Scheduled, step.outcome, step.nextRetryAt), a.rows[after])
        else after == n)
    && (step.StartRun? && step.id == id && n < |a.executions| ==>
          Timeline(s.clock) <= a.executions[n].ticks.start)
  }

  /** The account tells what the path does with the run; its id is not used again. */
  ghost predicate Tells(states: seq<State>, steps: seq<Step>, id: RunId, a: Account) {
    && Path(states, steps) && Computed(a)
    && |a.finished| == |states| && a.finished[0] == 0 && a.finished[|steps|] == |a.executions|
    && forall j :: 0 <= j < |steps| ==>
        !Creates(steps[j], id) && Follows(states[j], steps[j], a, id, a.finished[j], a.finished[j + 1])
  }

  // ---- What holds along the path ----

  /** Wherever the run is seen, it shows this row. */
  ghost predicate Seen(s: State, id: RunId, row: R.RunRow) {
    && id !in s.requests
    && (id in s.runs ==> Shows(s.runs[id], row))
    && forall w :: w in s.workers && id in s.workers[w].created ==> Shows(s.workers[w].created[id], row)
  }

  /** The execution under way started when the row was due. */
  ghost predicate StartedDue(s: State, id: RunId, a: Account, n: nat) {
    (exists w :: w in s.workers && s.workers[w].current == Some(id)) && n < |a.executions| ==>
      n < |a.rows| && (a.rows[n].nextRetryAt.Some? ==> a.rows[n].nextRetryAt.value <= a.executions[n].ticks.start)
  }

  lemma MarkedShows(run: Run, row: R.RunRow)
    requires Shows(run, row) && run.status.Queued?
    ensures Shows(run.(status := Running), row)
  {
    hide ValidInstant, Timeline;
  }

  lemma SeenWithWorker(s: State, w: WorkerId, worker: Worker, id: RunId, row: R.RunRow)
    requires Seen(s, id, row) && (id in worker.created ==> Shows(worker.created[id], row))
    ensures Seen(WithWorker(s, w, worker), id, row)
  {
    hide Shows;
  }

  lemma SeenWhenClaimed(s: State, w: WorkerId, batch: set<RunId>, id: RunId, row: R.RunRow)
    requires RunsOk(s) && w in s.workers && s.workers[w].phase.Enqueuing? && Seen(s, id, row)
    ensures Seen(WithWorker(s, w, Claiming(s.workers[w], batch)), id, row)
  {
    hide Shows, Apart, OneActive, NewIds, OwnedOk;
    var worker := s.workers[w];
    assert WorkerOk(s.runs, worker);
    if id in worker.created { MarkedShows(worker.created[id], row); }
    SeenWithWorker(s, w, Claiming(worker, batch), id, row);
  }

  lemma SeenAfterCommit(s: State, w: WorkerId, t: State, id: RunId, row: R.RunRow)
    requires RunsOk(s) && Next(s, CommitCycle(w), t) && Seen(s, id, row)
    ensures Seen(t, id, row)
  {
    hide MoveAll, Shows, Apart, OneActive, ValidInstant, Timeline;
    var worker := s.workers[w];
    assert WorkerOk(s.runs, worker);
    if id in s.runs && id in worker.claimed { MarkedShows(s.runs[id], row); }
  }

  lemma EnqueuedOther(worker: Worker, k: ScheduleId, id: RunId, after: Worker)
    requires exists m :: after == Enqueued(worker, k, id, m)
    ensures forall other :: other in after.created && other != id ==>
      other in worker.created && after.created[other] == worker.created[other]
  {
  }

  predicate OfCycle(step: Step) { step.BeginCycle? || step.EnqueueOne? || step.ClaimRuns? || step.CommitCycle? }

  predicate OfExecution(step: Step) {
    step.StartRun? || step.FinishRun? || step.RollbackRun? || step.EndCycle? || step.Crash?
  }

  lemma SeenInCycle(s: State, step: Step, t: State, id: RunId, row: R.RunRow)
    requires RunsOk(s) && Next(s, step, t) && !Creates(step, id) && Seen(s, id, row) && OfCycle(step)
    ensures Seen(t, id, row)
  {
    hide NextRunAt, HasActiveRun, Fresh, ScheduleLocked, Due, RunLocked, Claimable, Shows, RunsOk, MoveAll, MarkRunning;
    hide Enqueued, Claiming, ValidInstant, Timeline, Seen;
    if step.CommitCycle? {
      SeenAfterCommit(s, step.w, t, id, row);
    } else if step.ClaimRuns? {
      SeenWhenClaimed(s, step.w, step.batch, id, row);
    } else {
      if step.EnqueueOne? && !HasActiveRun(s, s.workers[step.w], step.k) {
        EnqueuedOther(s.workers[step.w], step.k, step.id, t.workers[step.w]);
      }
      SeenCreated(s, step.w, id, row);
      SeenWithWorker(s, step.w, t.workers[step.w], id, row);
    }
  }

  lemma SeenCreated(s: State, w: WorkerId, id: RunId, row: R.RunRow)
    requires Seen(s, id, row) && w in s.workers
    ensures id in s.workers[w].created ==> Shows(s.workers[w].created[id], row)
  {
    hide Shows;
  }

  lemma SeenInExecution(s: State, step: Step, t: State, id: RunId, row: R.RunRow)
    requires Next(s, step, t) && Seen(s, id, row) && !Finishes(s, step, id) && OfExecution(step)
    ensures Seen(t, id, row)
  {
    hide Shows, ValidInstant, Timeline, NextRunAt;
    if step.FinishRun? {
      assert id in s.runs ==> t.runs[id] == s.runs[id];
    } else {
      assert t.runs == s.runs;
    }
  }

  lemma SeenByOthers(s: State, step: Step, t: State, id: RunId, row: R.RunRow)
    requires Next(s, step, t) && !Creates(step, id) && Seen(s, id, row) && !OfCycle(step) && !OfExecution(step)
    ensures Seen(t, id, row)
  {
    hide NextRunAt, ScheduleLocked, Fresh, Shows, Edited, EditTime, ValidInstant, Timeline;
  }

  lemma SeenUnchanged(s: State, step: Step, t: State, id: RunId, row: R.RunRow)
    requires RunsOk(s) && Next(s, step, t) && !Creates(step, id) && Seen(s, id, row) && !Finishes(s, step, id)
    ensures Seen(t, id, row)
  {
    hide Next, Seen, RunsOk, OfCycle, OfExecution;
    if OfCycle(step) {
      SeenInCycle(s, step, t, id, row);
    } else if OfExecution(step) {
      SeenInExecution(s, step, t, id, row);
    } else {
      SeenByOthers(s, step, t, id, row);
    }
  }

  /** The run a worker executes is committed and running. */
  lemma Executing(s: State, w: WorkerId, id: RunId)
    requires RunsOk(s) && w in s.workers && id in Owned(s.workers[w]) && s.workers[w].phase.Executing?
    ensures id in s.runs && s.runs[id].status.Running?
    ensures forall v :: v in s.workers ==> id !in s.workers[v].created && (v != w ==> id !in Owned(s.workers[v]))
  {
    hide OneActive, CreatedOk;
    assert WorkerOk(s.runs, s.workers[w]);
    forall v | v in s.workers && v != w ensures id !in Owned(s.workers[v]) {
      CreatedApart(s.workers[v], s.workers[w]);
    }
  }

  lemma SeenAfterFinish(s: State, step: Step, t: State, id: RunId, row: R.RunRow, next: R.RunRow)
    requires RunsOk(s) && Next(s, step, t) && Seen(s, id, row) && Finishes(s, step, id)
    requires Shows(Run(None, Scheduled, step.outcome, step.nextRetryAt), next)
    ensures row.status.Queued? && Seen(t, id, next)
    ensures forall v :: v in t.workers ==> t.workers[v].current != Some(id)
  {
    hide RunsOk, ValidInstant, Timeline;
    WorkingIsExecuting(s, step.w, id);
    Executing(s, step.w, id);
  }

  lemma WorkingIsExecuting(s: State, w: WorkerId, id: RunId)
    requires RunsOk(s) && w in s.workers && (s.workers[w].current == Some(id) || id in s.workers[w].left)
    ensures s.workers[w].phase.Executing? && id in Owned(s.workers[w])
  {
    hide Apart, OneActive, NewIds, CreatedOk, OwnedOk;
    assert WorkerOk(s.runs, s.workers[w]);
  }

  lemma DueWhenStarted(s: State, w: WorkerId, id: RunId, row: R.RunRow)
    requires RunsOk(s) && OwnedDue(s) && Seen(s, id, row) && ValidInstant(s.clock)
    requires w in s.workers && id in s.workers[w].left
    ensures row.nextRetryAt.Some? ==> row.nextRetryAt.value <= Timeline(s.clock)
  {
    hide RunsOk, ValidInstant, Timeline;
    WorkingIsExecuting(s, w, id);
    Executing(s, w, id);
    assert OwnsDue(s.runs, s.workers[w], s.clock);
  }

  lemma CycleStartsNone(s: State, step: Step, t: State, id: RunId)
    requires Next(s, step, t) && OfCycle(step)
    ensures forall w :: w in t.workers && t.workers[w].current == Some(id) ==>
      w in s.workers && s.workers[w].current == Some(id)
  {
    hide NextRunAt, HasActiveRun, Fresh, ScheduleLocked, Due, RunLocked, Claimable, MoveAll, MarkRunning;
    hide ValidInstant, Timeline;
  }

  /** Only starting it makes a worker execute a run. */
  lemma OthersStart(s: State, step: Step, t: State, id: RunId)
    requires Next(s, step, t) && !(step.StartRun? && step.id == id)
    ensures forall w :: w in t.workers && t.workers[w].current == Some(id) ==>
      w in s.workers && s.workers[w].current == Some(id)
  {
    hide NextRunAt, ScheduleLocked, Fresh, EditTime, Edited, ValidInstant, Timeline;
    hide HasActiveRun, Due, Claimable, MoveAll, MarkRunning, Enqueued, Claiming;
    if OfCycle(step) {
      CycleStartsNone(s, step, t, id);
    } else if !OfExecution(step) {
      OthersKeepWorkers(s, step, t);
    }
  }

  lemma OthersKeepWorkers(s: State, step: Step, t: State)
    requires Next(s, step, t) && !OfCycle(step) && !OfExecution(step)
    ensures t.workers == s.workers
  {
    hide NextRunAt, ScheduleLocked, Fresh, EditTime, Edited, ValidInstant, Timeline;
  }

  lemma StartedDueKept(s: State, step: Step, t: State, id: RunId, a: Account, n: nat, after: nat)
    requires RunsOk(s) && OwnedDue(s) && Next(s, step, t) && Follows(s, step, a, id, n, after) && n <= |a.executions|
    requires Seen(s, id, a.rows[n]) && StartedDue(s, id, a, n)
    ensures StartedDue(t, id, a, after)
  {
    hide RunsOk, OwnedDue, Next, Shows, ValidInstant, Timeline, Seen;
    if Finishes(s, step, id) {
      SeenAfterFinish(s, step, t, id, a.rows[n], a.rows[after]);
    } else if step.StartRun? && step.id == id {
      StartsLeft(s, step, t);
      DueWhenStarted(s, step.w, id, a.rows[n]);
    } else {
      OthersStart(s, step, t, id);
    }
  }

  lemma StartsLeft(s: State, step: Step, t: State)
    requires Next(s, step, t) && step.StartRun?
    ensures step.w in s.workers && step.id in s.workers[step.w].left
  {
  }

  lemma ExecutesNext(s: State, step: Step, t: State, id: RunId, a: Account, n: nat)
    requires RunsOk(s) && Next(s, step, t) && Finishes(s, step, id) && Follows(s, step, a, id, n, n + 1) && Computed(a)
    requires Seen(s, id, a.rows[n]) && StartedDue(s, id, a, n)
    ensures R.Executes(a.rows[n], a.executions[n], a.rows[n + 1])
  {
    hide RunsOk, Next, Shows, ValidInstant, Timeline, Seen, R.After;
    SeenAfterFinish(s, step, t, id, a.rows[n], a.rows[n + 1]);
  }

  ghost predicate Lives(a: Account, n: nat)
    requires n <= |a.executions| && |a.rows| == |a.executions| + 1
  {
    forall m :: 0 <= m < n ==> R.Executes(a.rows[m], a.executions[m], a.rows[m + 1])
  }

  lemma {:induction false} Along(states: seq<State>, steps: seq<Step>, id: RunId, a: Account, j: nat)
    requires Tells(states, steps, id, a) && Inv(states[0]) && j <= |steps|
    requires Seen(states[0], id, a.rows[0]) && StartedDue(states[0], id, a, 0)
    ensures a.finished[j] <= |a.executions| && Seen(states[j], id, a.rows[a.finished[j]])
    ensures StartedDue(states[j], id, a, a.finished[j]) && Lives(a, a.finished[j])
  {
    hide Inv, Next, Seen, StartedDue, Finishes, Computed, R.Executes, Shows, ValidInstant;
    RowsAndExecutions(a);
    if j > 0 {
      Along(states, steps, id, a, j - 1);
      PathKeepsInv(states, steps, j - 1);
      var s, step, t := states[j - 1], steps[j - 1], states[j];
      var n, after := a.finished[j - 1], a.finished[j];
      assert Next(s, step, t) && Follows(s, step, a, id, n, after) && !Creates(step, id);
      InvForLives(s);
      StartedDueKept(s, step, t, id, a, n, after);
      if Finishes(s, step, id) {
        SeenAfterFinish(s, step, t, id, a.rows[n], a.rows[after]);
        ExecutesNext(s, step, t, id, a, n);
      } else {
        SeenUnchanged(s, step, t, id, a.rows[n]);
      }
    }
  }

  lemma RowsAndExecutions(a: Account)
    requires Computed(a)
    ensures |a.rows| == |a.executions| + 1
  {
    hide R.After;
  }

  lemma InvForLives(s: State)
    requires Inv(s)
    ensures RunsOk(s) && OwnedDue(s) && NewIds(s)
  {
  }

  // ---- Main results ----

  /** A state of the protocol in which w's open transaction has just created the run. */
  ghost predicate JustEnqueued(s: State, w: WorkerId, id: RunId) {
    && Inv(s) && ValidInstant(s.clock) && w in s.workers && id in s.workers[w].created
    && s.workers[w].created[id].status.Queued? && s.workers[w].created[id].nextRetryAt == Some(s.clock)
  }

  /** From the state in which a worker has just enqueued a run, whatever workers, requests and
      crashes do: the executions finished in the run are, in order, a life of its row. In
      particular each is of a queued run whose retry time has come. */
  lemma RunsLive(states: seq<State>, steps: seq<Step>, w: WorkerId, id: RunId, a: Account,
    maxRetries: int, backoff: int, sql: string)
    requires Tells(states, steps, id, a) && JustEnqueued(states[0], w, id)
    requires a.rows[0] == R.NewRun(maxRetries, backoff, sql, Timeline(states[0].clock))
    ensures R.Life(a.rows, a.executions, maxRetries, backoff, sql, Timeline(states[0].clock))
  {
    hide Inv, Next, Computed, Follows, Timeline, ValidInstant, R.Executes;
    RowsAndExecutions(a);
    SeenAtFirst(states[0], w, id, a.rows[0]);
    Along(states, steps, id, a, |steps|);
  }

  lemma SeenAtFirst(s: State, w: WorkerId, id: RunId, row: R.RunRow)
    requires Inv(s) && w in s.workers && id in s.workers[w].created && Shows(s.workers[w].created[id], row)
    ensures Seen(s, id, row) && forall v :: v in s.workers ==> s.workers[v].current != Some(id)
  {
    hide SchedulesOk, OneActive, OwnedDue, Shows;
    forall v | v in s.workers ensures s.workers[v].current != Some(id) && (v != w ==> id !in s.workers[v].created) {
      assert WorkerOk(s.runs, s.workers[v]);
      if v != w { CreatedApart(s.workers[v], s.workers[w]); }
    }
  }

  /** So no more than max_retries + 1 executions of it are ever finished, and after that many it
      is over. */
  lemma FinishedBounded(states: seq<State>, steps: seq<Step>, w: WorkerId, id: RunId, a: Account,
    maxRetries: nat, backoff: int, sql: string)
    requires Tells(states, steps, id, a) && JustEnqueued(states[0], w, id)
    requires a.rows[0] == R.NewRun(maxRetries, backoff, sql, Timeline(states[0].clock))
    ensures a.finished[|steps|] <= maxRetries + 1
    ensures a.finished[|steps|] == maxRetries + 1 && id in states[|steps|].runs ==>
      Terminal(states[|steps|].runs[id].status)
  {
    hide Inv, Next, Computed, Follows, Timeline, ValidInstant, R.Life;
    RunsLive(states, steps, w, id, a, maxRetries, backoff, sql);
    R.ExecutionsBounded(a.rows, a.executions, maxRetries, backoff, sql, Timeline(states[0].clock));
    RowsAndExecutions(a);
    SeenAtFirst(states[0], w, id, a.rows[0]);
    Along(states, steps, id, a, |steps|);
  }
}
