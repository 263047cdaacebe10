/** One execution of a report run: the query, the attempts log, retries with exponential
    backoff, and the deliveries of a successful result. Times are microseconds. */
module ReportExecution {
  import opened Wrappers
  import opened RunStatus
  import AsciiText

  // ---- Outcomes of the parts that are not modelled ----

  datatype ErrorKind = ValidationError | ArtifactError | ConfigurationError | TransportError | UnexpectedError

  predicate Retryable(kind: ErrorKind) { kind.TransportError? || kind.UnexpectedError? }

  datatype ReportOutcome =
    | Raised(kind: ErrorKind, message: string)
    | Produced(sql: string, rowCount: nat)

  datatype Sending = Sent | NotSent(message: string)

  /** The clock as read when an execution starts, ends, logs its attempt and plans a retry. */
  datatype Ticks = Ticks(start: int, end: int, logged: int, retry: int)

  // ---- Rows as values ----

  datatype AttemptStatus = AttemptSucceeded | AttemptFailed

  datatype Attempt = Attempt(number: nat, status: AttemptStatus, message: string, timestamp: int)

  const SUCCESS_MESSAGE := "Report SQL validated and executed successfully."
  const DELIVERIES_FAILED := "One or more report deliveries failed."

  datatype Delivery = Delivery(recipient: nat, channel: string, destination: string, sent: bool, errorMessage: string)

  datatype Address = Address(id: nat, isActive: bool, channel: string, destination: string, email: Option<string>)

  datatype RunRow = RunRow(
    status: Status, maxRetries: int, retryBackoffSeconds: int,
    retryCount: int, nextRetryAt: Option<int>,
    startedAt: Option<int>, finishedAt: Option<int>,
    attempts: seq<Attempt>, errorMessage: string,
    finalSql: string, rowsReturned: nat,
    deliveries: seq<Delivery>)

  datatype Execution = Execution(outcome: ReportOutcome, recipients: seq<Address>, sendings: seq<Sending>, ticks: Ticks)

  // ---- What an execution does ----

  /** Where a recipient is reached; the empty text is nowhere. */
  function TargetOf(a: Address): string {
    AsciiText.Strip(if a.destination != "" then a.destination else a.email.GetOr(""))
  }

  predicate Reachable(a: Address) { a.isActive && TargetOf(a) != "" }

  function DeliveryTo(a: Address, s: Sending): Delivery {
    match s
    case Sent => Delivery(a.id, a.channel, TargetOf(a), true, "")
    case NotSent(message) => Delivery(a.id, a.channel, TargetOf(a), false, message)
  }

  function Deliveries(recipients: seq<Address>, sendings: seq<Sending>): seq<Delivery>
    requires |recipients| == |sendings|
  {
    if recipients == [] then []
    else
      var n := |recipients| - 1;
      var before := Deliveries(recipients[..n], sendings[..n]);
      if Reachable(recipients[n]) then before + [DeliveryTo(recipients[n], sendings[n])] else before
  }

  predicate AnyFailed(deliveries: seq<Delivery>) {
    exists d :: d in deliveries && !d.sent
  }

  function Power2(n: nat): (r: nat)
    ensures r >= 1
  {
    if n == 0 then 1 else 2 * Power2(n - 1)
  }

  const SECOND: int := 1_000_000

  function BaseDelay(backoff: int): int { (if backoff > 30 then backoff else 30) * SECOND }

  /** The wait before the k-th retry. */
  function RetryDelay(backoff: int, k: int): int {
    BaseDelay(backoff) * Power2(if k - 1 > 0 then k - 1 else 0)
  }

  function AfterResult(run: RunRow, sql: string, rowCount: nat, deliveries: seq<Delivery>, ticks: Ticks): RunRow {
    run.(
      status := if AnyFailed(deliveries) then DeliveryFailed else Succeeded,
      startedAt := Some(ticks.start), finishedAt := Some(ticks.end), errorMessage := "",
      attempts := run.attempts + [Attempt(|run.attempts| + 1, AttemptSucceeded, SUCCESS_MESSAGE, ticks.logged)],
      finalSql := sql, rowsReturned := rowCount, deliveries := deliveries)
  }

  function AfterFailure(run: RunRow, kind: ErrorKind, message: string, ticks: Ticks): RunRow {
    var retries := Retryable(kind) && run.retryCount < run.maxRetries;
    run.(
      status := if retries then Queued else Failed,
      retryCount := if retries then run.retryCount + 1 else run.retryCount,
      nextRetryAt :=
        if retries then Some(ticks.retry + RetryDelay(run.retryBackoffSeconds, run.retryCount + 1))
        else run.nextRetryAt,
      startedAt := Some(ticks.start), finishedAt := if retries then None else Some(ticks.end),
      attempts := run.attempts + [Attempt(|run.attempts| + 1, AttemptFailed, message, ticks.logged)],
      errorMessage := message)
  }

  /** The run after one execution. */
  function After(run: RunRow, e: Execution): RunRow
    requires |e.recipients| == |e.sendings|
  {
    match e.outcome
    case Produced(sql, rowCount) =>
      AfterResult(run, sql, rowCount, Deliveries(e.recipients, e.sendings), e.ticks)
    case Raised(kind, message) => AfterFailure(run, kind, message, e.ticks)
  }

  // ---- The stored objects and the methods that change them ----

  class ScheduleRun {
    const maxRetries: int
    const retryBackoffSeconds: int
    var status: Status
    var retryCount: int
    var nextRetryAt: Option<int>
    var startedAt: Option<int>
    var finishedAt: Option<int>
    var attempts: seq<Attempt>
    var errorMessage: string
    var finalSql: string
    var rowsReturned: nat
    var deliverySummary: seq<Delivery>

    /** A run as `create_run_record` leaves it. */
    constructor (maxRetries: int, retryBackoffSeconds: int, sql: string, now: int)
      ensures View() == NewRun(maxRetries, retryBackoffSeconds, sql, now)
    {
      this.maxRetries, this.retryBackoffSeconds := maxRetries, retryBackoffSeconds;
      status, retryCount, nextRetryAt := Queued, 0, Some(now);
      startedAt, finishedAt := None, None;
      attempts, errorMessage := [], "";
      finalSql, rowsReturned, deliverySummary := sql, 0, [];
    }

    function View(): RunRow
      reads this
    {
      RunRow(status, maxRetries, retryBackoffSeconds, retryCount, nextRetryAt, startedAt, finishedAt,
          attempts, errorMessage, finalSql, rowsReturned, deliverySummary)
    }

    method AppendAttempt(status: AttemptStatus, message: string, now: int)
      modifies this`attempts
      ensures attempts == old(attempts) + [Attempt(|old(attempts)| + 1, status, message, now)]
    {
      attempts := attempts + [Attempt(|attempts| + 1, status, message, now)];
    }
  }

  class ReportRow {
    var lastRunAt: Option<int>
    var lastRunStatus: Status
  }

  class ScheduleRow {
    var lastRunAt: Option<int>
    var lastErrorMessage: string
    var lastErrorAt: Option<int>
  }

  class RecipientRow {
    const address: Address
    var lastSentAt: Option<int>
  }

  function Addresses(recipients: seq<RecipientRow>): (r: seq<Address>)
    ensures |r| == |recipients| && forall i :: 0 <= i < |r| ==> r[i] == recipients[i].address
  {
    seq(|recipients|, i requires 0 <= i < |recipients| => recipients[i].address)
  }

  function NewRun(maxRetries: int, backoff: int, sql: string, now: int): RunRow {
    RunRow(Queued, maxRetries, backoff, 0, Some(now), None, None, [], "", sql, 0, [])
  }

  ghost predicate Distinct(recipients: seq<RecipientRow>) {
    forall i, j :: 0 <= i < j < |recipients| ==> recipients[i] != recipients[j]
  }

  function SentAt(a: Address, s: Sending, now: int, before: Option<int>): Option<int> {
    if Reachable(a) && s.Sent? then Some(now) else before
  }

  lemma NoDeliveries()
    ensures Deliveries([], []) == [] && !AnyFailed([])
  {
  }

  lemma DeliveriesUpTo(recipients: seq<Address>, sendings: seq<Sending>, n: nat)
    requires |recipients| == |sendings| && n < |recipients|
    ensures var before := Deliveries(recipients[..n], sendings[..n]);
      Deliveries(recipients[..n + 1], sendings[..n + 1]) ==
        if Reachable(recipients[n]) then before + [DeliveryTo(recipients[n], sendings[n])] else before
  {
    hide Reachable, DeliveryTo;
    assert recipients[..n + 1][..n] == recipients[..n] && sendings[..n + 1][..n] == sendings[..n];
  }

  lemma OneMoreDelivery(deliveries: seq<Delivery>, d: Delivery)
    ensures AnyFailed(deliveries + [d]) <==> AnyFailed(deliveries) || !d.sent
  {
  }

  method DeliverToTargets(run: ScheduleRun, recipients: seq<RecipientRow>, sendings: seq<Sending>, now: int)
    returns (deliveries: seq<Delivery>, anyFailure: bool)
    requires |recipients| == |sendings| && Distinct(recipients)
    modifies run`deliverySummary, recipients
    ensures deliveries == Deliveries(Addresses(recipients), sendings)
    ensures anyFailure <==> AnyFailed(deliveries)
    ensures run.deliverySummary == deliveries
    ensures forall i :: 0 <= i < |recipients| ==>
      recipients[i].lastSentAt == SentAt(recipients[i].address, sendings[i], now, old(recipients[i].lastSentAt))
  {
    hide Deliveries, AnyFailed, AsciiText.Strip;
    deliveries, anyFailure := [], false;
    ghost var addresses := Addresses(recipients);
    NoDeliveries();
    for n := 0 to |recipients|
      invariant deliveries == Deliveries(addresses[..n], sendings[..n])
      invariant anyFailure <==> AnyFailed(deliveries)
      invariant forall i :: 0 <= i < n ==>
        recipients[i].lastSentAt == SentAt(recipients[i].address, sendings[i], now, old(recipients[i].lastSentAt))
      invariant forall i :: n <= i < |recipients| ==> recipients[i].lastSentAt == old(recipients[i].lastSentAt)
    {
      DeliveriesUpTo(addresses, sendings, n);
      var address := recipients[n].address;
      var destination :=
        AsciiText.Strip(if address.destination != "" then address.destination else address.email.GetOr(""));
      if !address.isActive || destination == "" { continue; }
      var delivery := Delivery(address.id, address.channel, destination, true, "");
      match sendings[n] {
        case Sent =>
          recipients[n].lastSentAt := Some(now);
        case NotSent(message) =>
          anyFailure := true;
          delivery := delivery.(sent := false, errorMessage := message);
      }
      OneMoreDelivery(deliveries, delivery);
      deliveries := deliveries + [delivery];
    }
    assert addresses[..|recipients|] == addresses && sendings[..|recipients|] == sendings;
    run.deliverySummary := deliveries;
  }

  /** The failing half of an execution: log it, and queue a retry if one is left. */
  method RecordFailure(run: ScheduleRun, kind: ErrorKind, message: string, ticks: Ticks)
    modifies run
    ensures run.View() == AfterFailure(old(run.View()), kind, message, ticks)
  {
    hide Deliveries, AnyFailed, Power2;
    run.startedAt, run.errorMessage := Some(ticks.start), message;
    run.finishedAt := Some(ticks.end);
    run.AppendAttempt(AttemptFailed, message, ticks.logged);
    if Retryable(kind) && run.retryCount < run.maxRetries {
      run.retryCount := run.retryCount + 1;
      var multiplier := Power2(if run.retryCount - 1 > 0 then run.retryCount - 1 else 0);
      var base := if run.retryBackoffSeconds > 30 then run.retryBackoffSeconds else 30;
      run.nextRetryAt := Some(ticks.retry + base * SECOND * multiplier);
      run.status := Queued;
      run.finishedAt := None;
    } else {
      run.status := Failed;
    }
  }

  /** The succeeding half: keep the result, log it, and deliver. */
  method RecordResult(
    run: ScheduleRun, recipients: seq<RecipientRow>, sql: string, rowCount: nat,
    sendings: seq<Sending>, ticks: Ticks)
    requires |recipients| == |sendings| && Distinct(recipients)
    modifies run, recipients
    ensures run.View() ==
      AfterResult(old(run.View()), sql, rowCount, Deliveries(Addresses(recipients), sendings), ticks)
    ensures forall i :: 0 <= i < |recipients| ==>
      recipients[i].lastSentAt == SentAt(recipients[i].address, sendings[i], ticks.end, old(recipients[i].lastSentAt))
  {
    hide Deliveries, AnyFailed, SentAt, Distinct;
    run.startedAt, run.errorMessage := Some(ticks.start), "";
    run.finalSql, run.rowsReturned := sql, rowCount;
    run.finishedAt := Some(ticks.end);
    run.status := Succeeded;
    run.AppendAttempt(AttemptSucceeded, SUCCESS_MESSAGE, ticks.logged);
    var _, anyFailure := DeliverToTargets(run, recipients, sendings, ticks.end);
    if anyFailure { run.status := DeliveryFailed; }
  }

  lemma StatusIsOverwritten(run: RunRow, outcome: ReportOutcome, deliveries: seq<Delivery>, ticks: Ticks)
    ensures outcome.Produced? ==>
      AfterResult(run.(status := Running), outcome.sql, outcome.rowCount, deliveries, ticks)
        == AfterResult(run, outcome.sql, outcome.rowCount, deliveries, ticks)
    ensures outcome.Raised? ==>
      AfterFailure(run.(status := Running), outcome.kind, outcome.message, ticks)
        == AfterFailure(run, outcome.kind, outcome.message, ticks)
  {
  }

  method ExecuteReportRun(
    run: ScheduleRun, report: ReportRow, schedule: ScheduleRow?, recipients: seq<RecipientRow>,
    outcome: ReportOutcome, sendings: seq<Sending>, ticks: Ticks)
    requires |recipients| == |sendings| && Distinct(recipients)
    modifies run, report, recipients, if schedule == null then {} else {schedule}
    ensures run.View() == After(old(run.View()), Execution(outcome, Addresses(recipients), sendings, ticks))
    ensures report.lastRunStatus == run.status && report.lastRunAt == Some(ticks.end)
    ensures schedule != null && outcome.Raised? ==>
      && schedule.lastErrorMessage == outcome.message && schedule.lastErrorAt == Some(ticks.end)
      && schedule.lastRunAt == old(schedule.lastRunAt)
    ensures schedule != null && outcome.Produced? ==>
      && schedule.lastRunAt == Some(ticks.end)
      && schedule.lastErrorMessage == (if run.status.DeliveryFailed? then DELIVERIES_FAILED else "")
      && schedule.lastErrorAt == (if run.status.DeliveryFailed? then Some(ticks.end) else None)
    ensures forall i :: 0 <= i < |recipients| ==>
      recipients[i].lastSentAt == (
        if outcome.Produced? then SentAt(recipients[i].address, sendings[i], ticks.end, old(recipients[i].lastSentAt))
        else old(recipients[i].lastSentAt))
  {
    hide AfterResult, AfterFailure, Deliveries, SentAt, Distinct;
    ghost var before := run.View();
    run.status := Running;
    assert run.View() == before.(status := Running);
    StatusIsOverwritten(before, outcome, Deliveries(Addresses(recipients), sendings), ticks);
    match outcome {
      case Produced(sql, rowCount) =>
        RecordResult(run, recipients, sql, rowCount, sendings, ticks);
        if schedule != null {
          schedule.lastRunAt, schedule.lastErrorMessage, schedule.lastErrorAt := Some(ticks.end), "", None;
          if run.status.DeliveryFailed? {
            schedule.lastErrorMessage, schedule.lastErrorAt := DELIVERIES_FAILED, Some(ticks.end);
          }
        }
      case Raised(kind, message) =>
        RecordFailure(run, kind, message, ticks);
        if schedule != null {
          schedule.lastErrorMessage, schedule.lastErrorAt := message, Some(ticks.end);
        }
    }
    report.lastRunAt, report.lastRunStatus := Some(ticks.end), run.status;
  }

  // ---- Whole lives of a run ----

  /** The run as new, executed again and again while it is queued and its retry time has come. */
  ghost predicate Life(runs: seq<RunRow>, executions: seq<Execution>, maxRetries: int, backoff: int, sql: string,
    now: int)
  {
    && |runs| == |executions| + 1
    && runs[0] == NewRun(maxRetries, backoff, sql, now)
    && forall i :: 0 <= i < |executions| ==> Executes(runs[i], executions[i], runs[i + 1])
  }

  /** Only a queued run whose retry time has come is claimed and executed. */
  ghost predicate Executes(run: RunRow, e: Execution, after: RunRow) {
    && |e.recipients| == |e.sendings|
    && run.status.Queued? && (run.nextRetryAt.Some? ==> run.nextRetryAt.value <= e.ticks.start)
    && e.ticks.start <= e.ticks.end <= e.ticks.logged <= e.ticks.retry
    && after == After(run, e)
  }

  /** After i executions: i attempts in the log, numbered from one, and while the run still
      waits every execution so far was a retryable failure. */
  lemma {:induction false} LifeSoFar(
    runs: seq<RunRow>, executions: seq<Execution>, maxRetries: int, backoff: int, sql: string, now: int, i: nat)
    requires Life(runs, executions, maxRetries, backoff, sql, now) && i < |runs|
    ensures runs[i].maxRetries == maxRetries && runs[i].retryBackoffSeconds == backoff
    ensures |runs[i].attempts| == i && forall k :: 0 <= k < i ==> runs[i].attempts[k].number == k + 1
    ensures runs[i].status.Queued? || Terminal(runs[i].status)
    ensures runs[i].status.Queued? ==> runs[i].retryCount == i && (i > 0 ==> i <= maxRetries)
    ensures i < |runs| - 1 ==> runs[i].status.Queued?
  {
    hide Deliveries, AnyFailed, RetryDelay;
    if i > 0 {
      LifeSoFar(runs, executions, maxRetries, backoff, sql, now, i - 1);
      assert Executes(runs[i - 1], executions[i - 1], runs[i]);
    }
    if i < |runs| - 1 {
      assert Executes(runs[i], executions[i], runs[i + 1]);
    }
  }

  /** A run is executed at most max_retries + 1 times, after which it is over; it is over
      sooner exactly when an execution produced a result or failed for good. */
  lemma ExecutionsBounded(
    runs: seq<RunRow>, executions: seq<Execution>, maxRetries: int, backoff: int, sql: string, now: int)
    requires Life(runs, executions, maxRetries, backoff, sql, now)
    ensures var allowed := (if maxRetries > 0 then maxRetries else 0) + 1; var n := |executions|;
      && n <= allowed
      && (n == allowed ==> Terminal(runs[n].status))
      && (0 < n < allowed ==> (Terminal(runs[n].status) <==>
            || executions[n - 1].outcome.Produced?
            || executions[n - 1].outcome.kind in {ValidationError, ArtifactError, ConfigurationError}))
  {
    hide Deliveries, AnyFailed, RetryDelay;
    var n := |executions|;
    LifeSoFar(runs, executions, maxRetries, backoff, sql, now, n);
    if n > 0 {
      LifeSoFar(runs, executions, maxRetries, backoff, sql, now, n - 1);
      assert Executes(runs[n - 1], executions[n - 1], runs[n]);
    }
  }

  lemma {:induction false} DoublingSum(base: int, n: nat)
    ensures base * (Power2(n) - 1) + base * Power2(n) == base * (Power2(n + 1) - 1)
  {
  }

  /** The k-th retry is planned base * 2^(k-1) ahead, the base being the configured seconds and
      at least thirty, so that the n-th retry starts at least base * (2^n - 1) after the first
      execution. */
  lemma {:induction false} BackoffDoubles(
    runs: seq<RunRow>, executions: seq<Execution>, maxRetries: int, backoff: int, sql: string, now: int, n: nat)
    requires Life(runs, executions, maxRetries, backoff, sql, now) && n < |executions|
    ensures var base := (if backoff > 30 then backoff else 30) * 1_000_000;
      && (n > 0 ==> runs[n].nextRetryAt == Some(executions[n - 1].ticks.retry + base * Power2(n - 1)))
      && executions[n].ticks.start >= executions[0].ticks.start + base * (Power2(n) - 1)
  {
    assert BaseDelay(backoff) == (if backoff > 30 then backoff else 30) * 1_000_000;
    hide Deliveries, AnyFailed, BaseDelay;
    if n > 0 {
      BackoffDoubles(runs, executions, maxRetries, backoff, sql, now, n - 1);
      LifeSoFar(runs, executions, maxRetries, backoff, sql, now, n - 1);
      LifeSoFar(runs, executions, maxRetries, backoff, sql, now, n);
      assert Executes(runs[n - 1], executions[n - 1], runs[n]);
      assert Executes(runs[n], executions[n], runs[n + 1]);
      DoublingSum(BaseDelay(backoff), n - 1);
    }
  }

  // ---- Deliveries ----

  function CountFor(deliveries: seq<Delivery>, id: nat): nat {
    if deliveries == [] then 0
    else CountFor(deliveries[..|deliveries| - 1], id) + (if deliveries[|deliveries| - 1].recipient == id then 1 else 0)
  }

  ghost predicate DistinctIds(recipients: seq<Address>) {
    forall i, j :: 0 <= i < j < |recipients| ==> recipients[i].id != recipients[j].id
  }

  lemma {:induction false} NoneFor(recipients: seq<Address>, sendings: seq<Sending>, id: nat)
    requires |recipients| == |sendings| && forall a :: a in recipients ==> a.id != id
    ensures CountFor(Deliveries(recipients, sendings), id) == 0
  {
    hide Reachable, TargetOf;
    if recipients != [] {
      var n := |recipients| - 1;
      NoneFor(recipients[..n], sendings[..n], id);
      var before := Deliveries(recipients[..n], sendings[..n]);
      var d := DeliveryTo(recipients[n], sendings[n]);
      assert (before + [d])[..|before|] == before;
    }
  }

  /** An execution that produces a result makes exactly one delivery to each recipient that is
      active and has somewhere to be reached, and none to any other. */
  lemma {:induction false} OneDeliveryEach(recipients: seq<Address>, sendings: seq<Sending>, i: nat)
    requires |recipients| == |sendings| && DistinctIds(recipients) && i < |recipients|
    ensures CountFor(Deliveries(recipients, sendings), recipients[i].id) == if Reachable(recipients[i]) then 1 else 0
    ensures Reachable(recipients[i]) ==> DeliveryTo(recipients[i], sendings[i]) in Deliveries(recipients, sendings)
  {
    hide Reachable, TargetOf;
    var n := |recipients| - 1;
    var before, d := Deliveries(recipients[..n], sendings[..n]), DeliveryTo(recipients[n], sendings[n]);
    assert (before + [d])[..|before|] == before;
    if i == n {
      NoneFor(recipients[..n], sendings[..n], recipients[i].id);
    } else {
      OneDeliveryEach(recipients[..n], sendings[..n], i);
    }
  }

  /** A recipient's destination counts, and the e-mail address only if there is none; blanks around
      it are dropped, and a blank one means no delivery. */
  lemma DeliveredToDestination(recipients: seq<Address>, sendings: seq<Sending>, i: nat)
    requires |recipients| == |sendings| && DistinctIds(recipients) && i < |recipients|
    ensures var a := recipients[i];
      var place := AsciiText.Strip(if a.destination == "" && a.email.Some? then a.email.value else a.destination);
      if a.isActive && place != "" then
        exists d :: d in Deliveries(recipients, sendings)
          && d.recipient == a.id && d.channel == a.channel && d.destination == place
          && d.sent == sendings[i].Sent? && d.errorMessage == if d.sent then "" else sendings[i].message
      else CountFor(Deliveries(recipients, sendings), a.id) == 0
  {
    hide Deliveries, AsciiText.Strip;
    OneDeliveryEach(recipients, sendings, i);
  }

  /** A recipient's last sending is now exactly if a delivery to it was sent. */
  lemma SentIffDelivered(recipients: seq<Address>, sendings: seq<Sending>, i: nat, now: int, before: Option<int>)
    requires |recipients| == |sendings| && DistinctIds(recipients) && i < |recipients|
    ensures SentAt(recipients[i], sendings[i], now, before) ==
      if exists d :: d in Deliveries(recipients, sendings) && d.recipient == recipients[i].id && d.sent
      then Some(now) else before
  {
    hide Deliveries, Reachable, TargetOf;
    OneDeliveryEach(recipients, sendings, i);
    forall d | d in Deliveries(recipients, sendings) && d.recipient == recipients[i].id && d.sent
      ensures Reachable(recipients[i]) && sendings[i].Sent?
    {
      EveryDeliveryHasItsRecipient(recipients, sendings, d);
      var k :| 0 <= k < |recipients| && Reachable(recipients[k]) && d == DeliveryTo(recipients[k], sendings[k]);
      assert k == i;
    }
  }

  lemma {:induction false} EveryDeliveryHasItsRecipient(recipients: seq<Address>, sendings: seq<Sending>, d: Delivery)
    requires |recipients| == |sendings| && d in Deliveries(recipients, sendings)
    ensures exists i :: 0 <= i < |recipients| && Reachable(recipients[i]) && d == DeliveryTo(recipients[i], sendings[i])
  {
    hide Reachable, TargetOf;
    var n := |recipients| - 1;
    if d in Deliveries(recipients[..n], sendings[..n]) {
      EveryDeliveryHasItsRecipient(recipients[..n], sendings[..n], d);
      var i :| 0 <= i < n && Reachable(recipients[..n][i]) && d == DeliveryTo(recipients[..n][i], sendings[..n][i]);
      assert Reachable(recipients[i]) && d == DeliveryTo(recipients[i], sendings[i]);
    }
  }

  /** The last attempt logged, and when the execution it tells of started. */
  predicate Logged(run: RunRow, status: AttemptStatus, message: string, ticks: Ticks) {
    && run.attempts != [] && run.startedAt == Some(ticks.start)
    && run.attempts[|run.attempts| - 1] == Attempt(|run.attempts|, status, message, ticks.logged)
  }

  /** Deliveries are made in the last execution of a run and in no other, and only if it
      produced a result, which is stored; the run is delivery_failed exactly when some sending
      to a reachable recipient failed, and either way its SQL is not run again. */
  lemma DeliveredOnce(
    runs: seq<RunRow>, executions: seq<Execution>, maxRetries: int, backoff: int, sql: string, now: int, i: nat)
    requires Life(runs, executions, maxRetries, backoff, sql, now) && i < |executions|
    ensures executions[i].outcome.Produced? ==>
      && i == |executions| - 1
      && runs[i + 1].deliveries == Deliveries(executions[i].recipients, executions[i].sendings)
      && (runs[i + 1].status.DeliveryFailed? <==>
            exists k :: 0 <= k < |executions[i].recipients|
              && Reachable(executions[i].recipients[k]) && executions[i].sendings[k].NotSent?)
      && (runs[i + 1].status.Succeeded? || runs[i + 1].status.DeliveryFailed?)
      && runs[i + 1].finalSql == executions[i].outcome.sql
      && runs[i + 1].rowsReturned == executions[i].outcome.rowCount
      && runs[i + 1].errorMessage == "" && runs[i + 1].finishedAt == Some(executions[i].ticks.end)
      && Logged(runs[i + 1], AttemptSucceeded, "Report SQL validated and executed successfully.", executions[i].ticks)
    ensures executions[i].outcome.Raised? ==>
      && runs[i + 1].deliveries == runs[i].deliveries && (runs[i + 1].status.Queued? || runs[i + 1].status.Failed?)
      && runs[i + 1].finalSql == runs[i].finalSql && runs[i + 1].rowsReturned == runs[i].rowsReturned
      && runs[i + 1].errorMessage == executions[i].outcome.message
      && runs[i + 1].finishedAt == (if runs[i + 1].status.Queued? then None else Some(executions[i].ticks.end))
      && Logged(runs[i + 1], AttemptFailed, executions[i].outcome.message, executions[i].ticks)
  {
    hide Deliveries, RetryDelay, Reachable;
    assert Executes(runs[i], executions[i], runs[i + 1]);
    if executions[i].outcome.Produced? {
      LifeSoFar(runs, executions, maxRetries, backoff, sql, now, i + 1);
      FailedIffNotSent(executions[i].recipients, executions[i].sendings);
    }
  }

  lemma {:induction false} FailedIffNotSent(recipients: seq<Address>, sendings: seq<Sending>)
    requires |recipients| == |sendings|
    ensures AnyFailed(Deliveries(recipients, sendings)) <==>
      exists k :: 0 <= k < |recipients| && Reachable(recipients[k]) && sendings[k].NotSent?
  {
    hide Reachable, TargetOf;
    if recipients != [] {
      var n := |recipients| - 1;
      FailedIffNotSent(recipients[..n], sendings[..n]);
      var before, d := Deliveries(recipients[..n], sendings[..n]), DeliveryTo(recipients[n], sendings[n]);
      assert Deliveries(recipients, sendings) == if Reachable(recipients[n]) then before + [d] else before;
      if AnyFailed(before) {
        var k :| 0 <= k < n && Reachable(recipients[..n][k]) && sendings[..n][k].NotSent?;
        assert Reachable(recipients[k]) && sendings[k].NotSent?;
      }
      if Reachable(recipients[n]) && !d.sent { assert d in before + [d]; }
      if k :| 0 <= k < |recipients| && Reachable(recipients[k]) && sendings[k].NotSent? {
        if k < n { assert Reachable(recipients[..n][k]) && sendings[..n][k].NotSent?; }
      }
    }
  }
}
