/** The loops of one scheduler cycle, proved to be steps of the protocol. Other transactions
    may come between these methods and, in the protocol, between the rounds of a loop. */
module SchedulerCycle {
  import opened Wrappers
  import opened Calendar
  import opened NextRun
  import opened SchedulerProtocol
  import RunStatus

  // ---- Steps one after another ----

  ghost predicate Reaches(s: State, t: State) {
    exists states, steps :: Path(states, steps) && states[0] == s && states[|steps|] == t
  }

  lemma ReachesItself(s: State)
    ensures Reaches(s, s)
  {
    hide Next;
    var steps: seq<Step> := [];
    assert Path([s], steps);
  }

  lemma OneStepFurther(s: State, t: State, step: Step, u: State)
    requires Reaches(s, t) && Next(t, step, u)
    ensures Reaches(s, u)
  {
    hide Next;
    var states, steps :| Path(states, steps) && states[0] == s && states[|steps|] == t;
    var more, further := states + [u], steps + [step];
    forall i | 0 <= i < |further| ensures Next(more[i], further[i], more[i + 1]) {
      if i < |steps| { assert Next(states[i], steps[i], states[i + 1]); }
    }
    assert Path(more, further) && more[0] == s && more[|further|] == u;
  }

  /** What is reached keeps every invariant of the protocol. */
  lemma ReachedStatesKeepInv(s: State, t: State)
    requires Inv(s) && Reaches(s, t)
    ensures Inv(t)
  {
    hide Inv, Next;
    var states, steps :| Path(states, steps) && states[0] == s && states[|steps|] == t;
    PathKeepsInv(states, steps, |steps|);
  }

  // ---- Enqueueing ----

  /** Looking at one schedule: nothing if it has an active run, else a new run and its next
      occurrence; none when computing that raises. */
  function LookAt(s: State, w: WorkerId, k: ScheduleId, id: RunId): Option<State> {
    if w !in s.workers || k !in s.schedules || !ValidInstant(s.clock) || !ValidRule(s.schedules[k].rule) then None
    else
      var worker := s.workers[w];
      if HasActiveRun(s, worker, k) then Some(WithWorker(s, w, worker.(todo := worker.todo - {k})))
      else
        var next := NextRunAt(s.schedules[k].rule, s.clock);
        if next.Err? then None else Some(WithWorker(s, w, Enqueued(worker, k, id, Move(s.clock, next.value))))
  }

  function EnqueueAll(s: State, w: WorkerId, due: seq<ScheduleId>, ids: seq<RunId>): Option<State>
    requires |ids| == |due|
  {
    if due == [] then Some(s)
    else
      var n := |due| - 1;
      match EnqueueAll(s, w, due[..n], ids[..n])
      case None => None
      case Some(t) => LookAt(t, w, due[n], ids[n])
  }

  /** The cycle's transaction has locked these schedules and looked at none. */
  ghost predicate Locked(s: State, w: WorkerId, due: seq<ScheduleId>, ids: seq<RunId>) {
    && ValidInstant(s.clock) && w in s.workers && s.workers[w].phase.Enqueuing?
    && (forall k :: k in due ==> k in s.workers[w].todo && k in s.schedules && ValidRule(s.schedules[k].rule))
    && (forall i, j :: 0 <= i < j < |due| ==> due[i] != due[j])
    && |ids| == |due| && (forall i, j :: 0 <= i < j < |ids| ==> ids[i] != ids[j])
    && forall id :: id in ids ==> Fresh(s, id)
  }

  lemma LockedPrefix(s: State, w: WorkerId, due: seq<ScheduleId>, ids: seq<RunId>, n: nat)
    requires Locked(s, w, due, ids) && n <= |due|
    ensures Locked(s, w, due[..n], ids[..n])
    ensures n < |due| ==> due[n] !in due[..n] && ids[n] !in ids[..n]
  {
    hide Fresh;
  }

  /** What looking at these schedules leaves alone. */
  ghost predicate Looked(s: State, w: WorkerId, due: seq<ScheduleId>, ids: seq<RunId>, t: State)
    requires w in s.workers
  {
    && w in t.workers && t == WithWorker(s, w, t.workers[w]) && t.workers[w].phase.Enqueuing?
    && (forall k :: k in s.workers[w].todo && k !in due ==> k in t.workers[w].todo)
    && (forall id :: id in t.workers[w].created ==> id in s.workers[w].created || id in ids)
    && (forall k :: k !in due ==> (HasActiveRun(t, t.workers[w], k) <==> HasActiveRun(s, s.workers[w], k)))
  }

  lemma OtherSchedulesKeepCount(s: State, w: WorkerId, k: ScheduleId, id: RunId, m: Move, other: ScheduleId)
    requires w in s.workers && Fresh(s, id) && other != k
    ensures var after := Enqueued(s.workers[w], k, id, m);
      HasActiveRun(WithWorker(s, w, after), after, other) <==> HasActiveRun(s, s.workers[w], other)
  {
    hide Fresh;
    FreshHere(s, w, id);
    var worker, after := s.workers[w], Enqueued(s.workers[w], k, id, m);
    assert forall r :: r in worker.created ==> r in after.created && after.created[r] == worker.created[r];
  }

  lemma SkippingKeepsCount(s: State, w: WorkerId, k: ScheduleId, other: ScheduleId)
    requires w in s.workers
    ensures var after := s.workers[w].(todo := s.workers[w].todo - {k});
      HasActiveRun(WithWorker(s, w, after), after, other) <==> HasActiveRun(s, s.workers[w], other)
  {
  }

  lemma LookAtStep(s: State, w: WorkerId, k: ScheduleId, id: RunId)
    requires LookAt(s, w, k, id).Some? && s.workers[w].phase.Enqueuing? && k in s.workers[w].todo && Fresh(s, id)
    ensures Next(s, EnqueueOne(w, k, id), LookAt(s, w, k, id).value)
    ensures Looked(s, w, [k], [id], LookAt(s, w, k, id).value)
  {
    hide NextRunAt, Fresh, HasActiveRun;
    var t := LookAt(s, w, k, id).value;
    forall other | other !in [k] ensures HasActiveRun(t, t.workers[w], other) <==>
      HasActiveRun(s, s.workers[w], other) {
      if HasActiveRun(s, s.workers[w], k) {
        SkippingKeepsCount(s, w, k, other);
      } else {
        assert other != k;
        OtherSchedulesKeepCount(s, w, k, id, Move(s.clock, NextRunAt(s.schedules[k].rule, s.clock).value), other);
      }
    }
  }

  lemma FreshHere(s: State, w: WorkerId, id: RunId)
    requires w in s.workers && Fresh(s, id)
    ensures id !in s.workers[w].created
  {
  }

  lemma NothingLooked(s: State, w: WorkerId)
    requires w in s.workers && s.workers[w].phase.Enqueuing?
    ensures Looked(s, w, [], [], s)
  {
    hide HasActiveRun;
    PutBack(s, w);
  }

  lemma PutBack(s: State, w: WorkerId)
    requires w in s.workers
    ensures WithWorker(s, w, s.workers[w]) == s
  {
    assert s.workers[w := s.workers[w]] == s.workers;
  }

  lemma PutTwice(s: State, w: WorkerId, a: Worker, b: Worker)
    ensures WithWorker(WithWorker(s, w, a), w, b) == WithWorker(s, w, b)
  {
    assert s.workers[w := a][w := b] == s.workers[w := b];
  }

  lemma StillToLook(s: State, w: WorkerId, due: seq<ScheduleId>, ids: seq<RunId>, t: State, k: ScheduleId)
    requires w in s.workers && Looked(s, w, due, ids, t) && k in s.workers[w].todo && k !in due
    ensures w in t.workers && t.workers[w].phase.Enqueuing? && k in t.workers[w].todo
    ensures t.schedules == s.schedules && t.clock == s.clock
    ensures HasActiveRun(t, t.workers[w], k) <==> HasActiveRun(s, s.workers[w], k)
  {
    hide HasActiveRun;
  }

  lemma LookedOnce(s: State, w: WorkerId, due: seq<ScheduleId>, ids: seq<RunId>, t: State, k: ScheduleId, id: RunId,
    u: State)
    requires w in s.workers && Looked(s, w, due, ids, t) && Looked(t, w, [k], [id], u)
    ensures Looked(s, w, due + [k], ids + [id], u)
  {
    hide HasActiveRun;
  }

  lemma StaysFresh(s: State, w: WorkerId, due: seq<ScheduleId>, ids: seq<RunId>, t: State, id: RunId)
    requires w in s.workers && Looked(s, w, due, ids, t) && Fresh(s, id) && id !in ids
    ensures Fresh(t, id)
  {
    hide HasActiveRun;
  }

  /** The loop over due schedules is a run of enqueue steps. */
  lemma {:induction false} EnqueueAllIsSteps(s: State, w: WorkerId, due: seq<ScheduleId>, ids: seq<RunId>)
    requires Locked(s, w, due, ids) && EnqueueAll(s, w, due, ids).Some?
    ensures Reaches(s, EnqueueAll(s, w, due, ids).value) && Looked(s, w, due, ids, EnqueueAll(s, w, due, ids).value)
  {
    hide LookAt, Next, HasActiveRun, Fresh, Looked, Reaches;
    if due == [] {
      ReachesItself(s);
      NothingLooked(s, w);
    } else {
      var n := |due| - 1;
      LockedPrefix(s, w, due, ids, n);
      EnqueueAllIsSteps(s, w, due[..n], ids[..n]);
      var t := EnqueueAll(s, w, due[..n], ids[..n]).value;
      StillToLook(s, w, due[..n], ids[..n], t, due[n]);
      StaysFresh(s, w, due[..n], ids[..n], t, ids[n]);
      LookAtStep(t, w, due[n], ids[n]);
      var u := LookAt(t, w, due[n], ids[n]).value;
      OneStepFurther(s, t, EnqueueOne(w, due[n], ids[n]), u);
      LookedOnce(s, w, due[..n], ids[..n], t, due[n], ids[n], u);
      assert due == due[..n] + [due[n]] && ids == ids[..n] + [ids[n]];
    }
  }

  /** One new queued run, due now, and the first occurrence after now as next run. */
  ghost predicate GotRun(s: State, w: WorkerId, k: ScheduleId, id: RunId, t: State)
    requires ValidInstant(s.clock) && k in s.schedules && ValidRule(s.schedules[k].rule) && w in t.workers
  {
    && id in t.workers[w].created
    && t.workers[w].created[id] == Run(Some(k), Scheduled, RunStatus.Queued, Some(s.clock))
    && k in t.workers[w].moved && t.workers[w].moved[k].at == s.clock
    && FirstAfter(s.schedules[k].rule, s.clock, t.workers[w].moved[k].next)
  }

  /** A run of the schedule waits or is being executed, as the worker sees it. */
  ghost predicate Busy(s: State, worker: Worker, k: ScheduleId) {
    exists id, run ::
      && ((id in s.runs && run == s.runs[id]) || (id in worker.created && run == worker.created[id]))
      && run.schedule == Some(k) && (run.status.Queued? || run.status.Running?)
  }

  lemma BusyIsCounted(s: State, worker: Worker, k: ScheduleId)
    ensures HasActiveRun(s, worker, k) <==> Busy(s, worker, k)
  {
  }

  /** What the loop has given schedule k in state t: a run under this id, unless it had one. */
  ghost predicate Given(s: State, w: WorkerId, k: ScheduleId, id: RunId, t: State)
    requires ValidInstant(s.clock) && w in s.workers
  {
    && w in t.workers && k in s.schedules && ValidRule(s.schedules[k].rule)
    && if HasActiveRun(s, s.workers[w], k) then id !in t.workers[w].created else GotRun(s, w, k, id, t)
  }

  /** Looking at one more schedule takes nothing away. */
  lemma GivenStays(s: State, w: WorkerId, k: ScheduleId, id: RunId, t: State, other: ScheduleId, otherId: RunId)
    requires ValidInstant(s.clock) && w in s.workers && Given(s, w, k, id, t)
    requires other != k && otherId != id && LookAt(t, w, other, otherId).Some?
    ensures Given(s, w, k, id, LookAt(t, w, other, otherId).value)
  {
    hide HasActiveRun, NextRunAt, FirstAfter, Timeline;
  }

  lemma GivenNow(s: State, w: WorkerId, k: ScheduleId, id: RunId, t: State)
    requires ValidInstant(s.clock) && w in s.workers && w in t.workers && k in s.schedules
    requires ValidRule(s.schedules[k].rule)
    requires t.schedules == s.schedules && t.clock == s.clock && id !in t.workers[w].created
    requires HasActiveRun(t, t.workers[w], k) <==> HasActiveRun(s, s.workers[w], k)
    requires LookAt(t, w, k, id).Some?
    ensures Given(s, w, k, id, LookAt(t, w, k, id).value)
  {
    hide HasActiveRun, NextRunAt, FirstAfter, Timeline;
    NextRunAtIsFirstAfter(s.schedules[k].rule, s.clock);
  }

  lemma {:induction false} RunsGiven(s: State, w: WorkerId, due: seq<ScheduleId>, ids: seq<RunId>, i: nat)
    requires Locked(s, w, due, ids) && EnqueueAll(s, w, due, ids).Some? && i < |due|
    ensures Given(s, w, due[i], ids[i], EnqueueAll(s, w, due, ids).value)
  {
    hide Next, LookAt, Given, HasActiveRun, Fresh, Reaches, Looked;
    var n := |due| - 1;
    LockedPrefix(s, w, due, ids, n);
    EnqueueAllIsSteps(s, w, due[..n], ids[..n]);
    var t := EnqueueAll(s, w, due[..n], ids[..n]).value;
    if i < n {
      RunsGiven(s, w, due[..n], ids[..n], i);
      assert due[i] in due[..n] && ids[i] in ids[..n];
      GivenStays(s, w, due[i], ids[i], t, due[n], ids[n]);
    } else {
      StillToLook(s, w, due[..n], ids[..n], t, due[n]);
      StaysFresh(s, w, due[..n], ids[..n], t, ids[n]);
      FreshHere(t, w, ids[n]);
      GivenNow(s, w, due[n], ids[n], t);
    }
  }

  /** The schedules that get a run are exactly those that had none waiting or being executed, the
      runs counted at the start of the loop. */
  lemma EnqueueAllGivesRuns(s: State, w: WorkerId, due: seq<ScheduleId>, ids: seq<RunId>, i: nat)
    requires Locked(s, w, due, ids) && EnqueueAll(s, w, due, ids).Some? && i < |due|
    ensures var t := EnqueueAll(s, w, due, ids).value;
      && w in t.workers && due[i] in s.schedules && ValidRule(s.schedules[due[i]].rule)
      && (if Busy(s, s.workers[w], due[i]) then ids[i] !in t.workers[w].created
          else GotRun(s, w, due[i], ids[i], t))
  {
    hide HasActiveRun, Busy, Locked, EnqueueAll, GotRun;
    LockedParts(s, w, due, ids);
    RunsGiven(s, w, due, ids, i);
    BusyIsCounted(s, s.workers[w], due[i]);
  }

  /** In a state of the protocol the loop never raises: no edit stores a rule whose next run
      cannot be computed. */
  lemma {:induction false} EnqueueNeverRaises(s: State, w: WorkerId, due: seq<ScheduleId>, ids: seq<RunId>)
    requires Inv(s) && Locked(s, w, due, ids)
    ensures EnqueueAll(s, w, due, ids).Some?
  {
    hide Inv, Next, HasActiveRun, Fresh, NextRunAt, Reaches;
    if due != [] {
      var n := |due| - 1;
      LockedPrefix(s, w, due, ids, n);
      EnqueueNeverRaises(s, w, due[..n], ids[..n]);
      EnqueueAllIsSteps(s, w, due[..n], ids[..n]);
      var t := EnqueueAll(s, w, due[..n], ids[..n]).value;
      StoredRuleComputes(s, due[n]);
      NextRunAtIsFirstAfter(s.schedules[due[n]].rule, s.clock);
    }
  }

  lemma RaisesOnlyOutside(s: State, w: WorkerId, due: seq<ScheduleId>, ids: seq<RunId>)
    requires Locked(s, w, due, ids) && EnqueueAll(s, w, due, ids).None?
    ensures !Inv(s)
  {
    hide Inv, Locked, EnqueueAll;
    if Inv(s) { EnqueueNeverRaises(s, w, due, ids); }
  }

  lemma StoredRuleComputes(s: State, k: ScheduleId)
    requires Inv(s) && k in s.schedules
    ensures Computable(s.schedules[k].rule)
  {
    hide RunsOk, WorkersOk, Apart, NewIds, OneActive, Chain, FirstAfter;
    assert HistoryOk(s.schedules[k], s.clock);
  }

  // ---- The methods ----

  function IdSet(ids: seq<RunId>): set<RunId> { set id | id in ids }

  /** The transaction once these rows are marked running. */
  function Marked(worker: Worker, ids: seq<RunId>): Worker {
    worker.(claimed := worker.claimed + IdSet(ids), created := MarkRunning(worker.created, IdSet(ids)))
  }

  class Session {
    const w: WorkerId
    var state: State

    constructor (w: WorkerId, state: State)
      ensures this.w == w && this.state == state
    {
      this.w, this.state := w, state;
    }

    /** False when computing a next run raises, which rolls the cycle's transaction back; it
        does not happen in states of the protocol. */
    method EnqueueDueSchedules(due: seq<ScheduleId>, ids: seq<RunId>) returns (completed: bool)
      requires Locked(state, w, due, ids)
      modifies this`state
      ensures completed <==> EnqueueAll(old(state), w, due, ids).Some?
      ensures Inv(old(state)) ==> completed && Inv(state)
      ensures state == EnqueueAll(old(state), w, due, ids).GetOr(WithWorker(old(state), w, IDLE))
      ensures Reaches(old(state), state)
    {
      hide LookAt, Next, HasActiveRun, Fresh, Looked, Locked, Inv;
      ghost var s := state;
      assert w in s.workers && |ids| == |due| && ValidInstant(s.clock) by { LockedParts(s, w, due, ids); }
      for n := 0 to |due|
        invariant EnqueueAll(s, w, due[..n], ids[..n]) == Some(state)
      {
        assert due[..n + 1][..n] == due[..n] && ids[..n + 1][..n] == ids[..n];
        var looked := LookAt(state, w, due[n], ids[n]);
        if looked.None? {
          RaisedEarly(s, w, due, ids, n + 1);
          RaisesOnlyOutside(s, w, due, ids);
          RolledBack(s, w, due, ids, n, state);
          state := WithWorker(state, w, IDLE);
          return false;
        }
        state := looked.value;
      }
      assert due[..|due|] == due && ids[..|ids|] == ids;
      EnqueueAllIsSteps(s, w, due, ids);
      if Inv(s) { ReachedStatesKeepInv(s, state); }
      return true;
    }

    /** The rows the claiming statement returned, marked running one by one. */
    method ClaimRunnableRuns(runs: seq<RunId>) returns (claimed: seq<RunId>)
      requires ValidInstant(state.clock) && w in state.workers
      requires state.workers[w].phase.Enqueuing? && state.workers[w].todo == {} && state.workers[w].claimed == {}
      requires Claimable(state, state.workers[w], IdSet(runs))
      modifies this`state
      ensures claimed == runs
      ensures Next(old(state), ClaimRuns(w, IdSet(runs)), state)
      ensures forall id :: id in runs ==> ClaimedDue(old(state), w, id)
      ensures Inv(old(state)) ==> Inv(state)
    {
      hide Claimable, Inv, Owned, Next;
      ghost var s, worker := state, state.workers[w];
      claimed := [];
      MarkedNone(worker);
      PutBack(s, w);
      for n := 0 to |runs|
        invariant claimed == runs[..n] && state == WithWorker(s, w, Marked(worker, runs[..n]))
      {
        var now := state.workers[w];
        assert runs[..n + 1] == runs[..n] + [runs[n]];
        MarkedOneMore(worker, runs[..n], runs[n]);
        PutTwice(s, w, now, Marked(now, [runs[n]]));
        state := WithWorker(state, w, Marked(now, [runs[n]]));
        claimed := claimed + [runs[n]];
      }
      assert runs[..|runs|] == runs && worker.claimed + IdSet(runs) == IdSet(runs);
      PutTwice(s, w, state.workers[w], Claiming(worker, IdSet(runs)));
      state := WithWorker(state, w, state.workers[w].(phase := Claimed));
      ClaimIsStep(s, w, IdSet(runs));
      if Inv(s) { StepKeepsInv(s, ClaimRuns(w, IdSet(runs)), state); }
      forall id | id in runs ensures ClaimedDue(s, w, id) { ClaimableIsDue(s, w, IdSet(runs), id); }
    }
  }

  /** A queued run, committed or created by the worker, without retry time or with one that has
      come. */
  ghost predicate ClaimedDue(s: State, w: WorkerId, id: RunId)
    requires w in s.workers
  {
    exists run ::
      && ((id in s.runs && run == s.runs[id]) || (id in s.workers[w].created && run == s.workers[w].created[id]))
      && run.status.Queued? && NoLongerWaits(run, s.clock)
  }

  lemma ClaimableIsDue(s: State, w: WorkerId, batch: set<RunId>, id: RunId)
    requires ValidInstant(s.clock) && w in s.workers && Claimable(s, s.workers[w], batch) && id in batch
    ensures ClaimedDue(s, w, id)
  {
    hide Timeline, RunLocked, ValidInstant;
    var run := if id in s.runs && Runnable(s.runs[id], s.clock) then s.runs[id] else s.workers[w].created[id];
    assert NoLongerWaits(run, s.clock);
  }

  lemma ClaimIsStep(s: State, w: WorkerId, batch: set<RunId>)
    requires ValidInstant(s.clock) && w in s.workers && s.workers[w].phase.Enqueuing? && s.workers[w].todo == {}
    requires Claimable(s, s.workers[w], batch)
    ensures Next(s, ClaimRuns(w, batch), WithWorker(s, w, Claiming(s.workers[w], batch)))
  {
    hide Claimable;
  }

  lemma LockedParts(s: State, w: WorkerId, due: seq<ScheduleId>, ids: seq<RunId>)
    requires Locked(s, w, due, ids)
    ensures w in s.workers && |ids| == |due| && ValidInstant(s.clock)
  {
  }

  lemma RolledBack(s: State, w: WorkerId, due: seq<ScheduleId>, ids: seq<RunId>, n: nat, t: State)
    requires Locked(s, w, due, ids) && n <= |due| && EnqueueAll(s, w, due[..n], ids[..n]) == Some(t)
    ensures w in t.workers && WithWorker(t, w, IDLE) == WithWorker(s, w, IDLE) && Reaches(s, WithWorker(s, w, IDLE))
  {
    hide LookAt, Next, HasActiveRun, Fresh;
    LockedPrefix(s, w, due, ids, n);
    EnqueueAllIsSteps(s, w, due[..n], ids[..n]);
    CrashIsStep(t, w);
    OneStepFurther(s, t, Crash(w), WithWorker(t, w, IDLE));
  }

  lemma CrashIsStep(s: State, w: WorkerId)
    requires ValidInstant(s.clock) && w in s.workers
    ensures Next(s, Crash(w), WithWorker(s, w, IDLE))
  {
  }

  lemma {:induction false} RaisedEarly(s: State, w: WorkerId, due: seq<ScheduleId>, ids: seq<RunId>, n: nat)
    requires |ids| == |due| && n <= |due| && EnqueueAll(s, w, due[..n], ids[..n]).None?
    ensures EnqueueAll(s, w, due, ids).None?
    decreases |due|
  {
    hide LookAt;
    if n < |due| {
      var m := |due| - 1;
      assert due[..m][..n] == due[..n] && ids[..m][..n] == ids[..n];
      RaisedEarly(s, w, due[..m], ids[..m], n);
    } else {
      assert due[..n] == due && ids[..n] == ids;
    }
  }

  lemma MarkedNone(worker: Worker)
    ensures Marked(worker, []) == worker
  {
    assert worker.claimed + IdSet([]) == worker.claimed;
    assert MarkRunning(worker.created, IdSet([])) == worker.created;
  }

  lemma MarkedOneMore(worker: Worker, ids: seq<RunId>, id: RunId)
    ensures Marked(Marked(worker, ids), [id]) == Marked(worker, ids + [id])
  {
    assert worker.claimed + IdSet(ids) + IdSet([id]) == worker.claimed + IdSet(ids + [id]);
    assert MarkRunning(MarkRunning(worker.created, IdSet(ids)), IdSet([id]))
      == MarkRunning(worker.created, IdSet(ids + [id]));
  }
}
