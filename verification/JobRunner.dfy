/** The retrying job runner with virtual time (statum-examples/src/showcases/tokio_sqlite_job_runner.rs). */
module JobRunner {
  import opened Common
  import opened Text
  import opened Rehydrate

  const RETRY_DELAY_MS := 1000

  const QUEUED := "queued"
  const RUNNING := "running"
  const RETRYING := "retrying"
  const SUCCEEDED := "succeeded"
  const FAILED := "failed"

  datatype JobRow = JobRow(
    id: int, jobType: string, payload: string, attempts: int, maxAttempts: int, status: string, availableAtMs: int,
    leaseToken: Option<string>, lastError: Option<string>, resultText: Option<string>)

  datatype JobState =
    | Queued
    | Running(lease: string)
    | Retrying(availableAtMs: int, lastError: string)
    | Succeeded(output: string)
    | Failed(error: string)

  datatype RunnerError = CorruptState | InvalidJobConfig(message: string) | UnexpectedRunnableState

  // ---- Validators ----

  predicate Named(row: JobRow) {
    row.id > 0 && row.jobType != "" && row.payload != ""
  }

  function IsQueued(row: JobRow): Result<JobState, InvalidState> {
    if Named(row) && row.attempts == 0 && row.maxAttempts > 0 && row.status == QUEUED && row.availableAtMs == 0
       && row.leaseToken.None? && row.lastError.None? && row.resultText.None?
    then Ok(Queued) else Err(InvalidState)
  }

  function IsRunning(row: JobRow): Result<JobState, InvalidState> {
    if !Named(row) || row.attempts <= 0 || row.attempts > row.maxAttempts || row.status != RUNNING || row.availableAtMs != 0
       || row.lastError.Some? || row.resultText.Some? || row.leaseToken.None?
    then Err(InvalidState) else Ok(Running(row.leaseToken.value))
  }

  function IsRetrying(row: JobRow): Result<JobState, InvalidState> {
    if !Named(row) || row.attempts <= 0 || row.attempts >= row.maxAttempts || row.status != RETRYING || row.availableAtMs <= 0
       || row.resultText.Some? || row.lastError.None? || Blank(row.lastError.value)
    then Err(InvalidState) else Ok(Retrying(row.availableAtMs, row.lastError.value))
  }

  function IsSucceeded(row: JobRow): Result<JobState, InvalidState> {
    if !Named(row) || row.attempts <= 0 || row.attempts > row.maxAttempts || row.status != SUCCEEDED || row.availableAtMs != 0
       || row.leaseToken.Some? || row.lastError.Some? || row.resultText.None?
    then Err(InvalidState) else Ok(Succeeded(row.resultText.value))
  }

  function IsFailed(row: JobRow): Result<JobState, InvalidState> {
    if !Named(row) || row.attempts <= 0 || row.attempts != row.maxAttempts || row.status != FAILED || row.availableAtMs != 0
       || row.leaseToken.Some? || row.resultText.Some? || row.lastError.None?
    then Err(InvalidState) else Ok(Failed(row.lastError.value))
  }

  const VALIDATORS: seq<Validator<JobRow, JobState, InvalidState>> := [
    Validator("is_queued", "Queued", false, (row: JobRow) => IsQueued(row)),
    Validator("is_running", "Running", false, (row: JobRow) => IsRunning(row)),
    Validator("is_retrying", "Retrying", false, (row: JobRow) => IsRetrying(row)),
    Validator("is_succeeded", "Succeeded", false, (row: JobRow) => IsSucceeded(row)),
    Validator("is_failed", "Failed", false, (row: JobRow) => IsFailed(row))]

  /** Each status has its own validator, so a queued or retrying row is decided by that one alone. */
  lemma RebuiltByStatus(row: JobRow)
    ensures row.status == QUEUED ==> Rebuilt(VALIDATORS, row) == IsQueued(row)
    ensures row.status == RETRYING ==> Rebuilt(VALIDATORS, row) == IsRetrying(row)
  {
    StatusesDiffer();
    var first := FirstAccepting(VALIDATORS, row);
    assert VALIDATORS[0].check(row) == IsQueued(row) && VALIDATORS[1].check(row) == IsRunning(row);
    assert VALIDATORS[2].check(row) == IsRetrying(row);
    assert VALIDATORS[3].check(row) == IsSucceeded(row) && VALIDATORS[4].check(row) == IsFailed(row);
    if row.status == QUEUED {
      assert first == if IsQueued(row).Ok? then Some(0) else None;
    } else if row.status == RETRYING {
      assert first == if IsRetrying(row).Ok? then Some(2) else None;
    }
  }

  /** The rows a machine state is stored in. */
  ghost predicate StoredAs(row: JobRow, s: JobState) {
    && row.id > 0 && row.jobType != "" && row.payload != ""
    && match s
       case Queued =>
         row.maxAttempts > 0 && row == JobRow(row.id, row.jobType, row.payload, 0, row.maxAttempts, "queued", 0, None, None, None)
       case Running(lease) =>
         0 < row.attempts <= row.maxAttempts && row.status == "running" && row.availableAtMs == 0
         && row.leaseToken == Some(lease) && row.lastError.None? && row.resultText.None?
       case Retrying(at, error) =>
         0 < row.attempts < row.maxAttempts && row.status == "retrying" && row.availableAtMs == at > 0
         && row.lastError == Some(error) && !Blank(error) && row.resultText.None?
       case Succeeded(output) =>
         0 < row.attempts <= row.maxAttempts && row.status == "succeeded" && row.availableAtMs == 0
         && row.leaseToken.None? && row.lastError.None? && row.resultText == Some(output)
       case Failed(error) =>
         0 < row.attempts == row.maxAttempts && row.status == "failed" && row.availableAtMs == 0
         && row.leaseToken.None? && row.lastError == Some(error) && row.resultText.None?
  }

  lemma RowChecks(row: JobRow)
    ensures Rebuilt(VALIDATORS, row)
         == if row.status == QUEUED then IsQueued(row) else if row.status == RUNNING then IsRunning(row)
            else if row.status == RETRYING then IsRetrying(row) else if row.status == SUCCEEDED then IsSucceeded(row)
            else if row.status == FAILED then IsFailed(row) else Err(InvalidState)
  {
    StatusesDiffer();
    var statuses := [QUEUED, RUNNING, RETRYING, SUCCEEDED, FAILED];
    assert statuses[0] == QUEUED && statuses[1] == RUNNING && statuses[2] == RETRYING && statuses[3] == SUCCEEDED;
    assert VALIDATORS[0].check(row) == IsQueued(row) && VALIDATORS[1].check(row) == IsRunning(row);
    assert VALIDATORS[2].check(row) == IsRetrying(row);
    assert VALIDATORS[3].check(row) == IsSucceeded(row) && VALIDATORS[4].check(row) == IsFailed(row);
    var first := FirstAccepting(VALIDATORS, row);
  }

  /** Whatever a row holds: it rebuilds to a state exactly when that state is stored so. */
  lemma RowsRebuildExactly(row: JobRow, s: JobState)
    ensures Rebuilt(VALIDATORS, row) == Ok(s) <==> StoredAs(row, s)
  {
    RowChecks(row);
    StatusesDiffer();
    var statuses := [QUEUED, RUNNING, RETRYING, SUCCEEDED, FAILED];
    assert statuses[0] == QUEUED && statuses[1] == RUNNING && statuses[2] == RETRYING && statuses[3] == SUCCEEDED;
  }

  lemma StatusesDiffer()
    ensures Distinct([QUEUED, RUNNING, RETRYING, SUCCEEDED, FAILED])
  {
    assert |QUEUED| == 6 && |RUNNING| == 7 && |RETRYING| == 8 && |SUCCEEDED| == 9 && |FAILED| == 6;
    assert QUEUED[0] == 'q' && FAILED[0] == 'f';
  }

  // ---- Queries ----

  predicate Runnable(row: JobRow, now: int) {
    row.status == QUEUED || (row.status == RETRYING && row.availableAtMs <= now)
  }

  /** Order by availability, then id. */
  predicate KeyAtMost(a: JobRow, b: JobRow) {
    a.availableAtMs < b.availableAtMs || (a.availableAtMs == b.availableAtMs && a.id <= b.id)
  }

  /** Position of the runnable row that comes first by (availability, id). */
  function NextRunnable(rows: seq<JobRow>, now: int): (r: Option<nat>)
    ensures r.Some? ==> r.value < |rows| && Runnable(rows[r.value], now)
    ensures r.Some? ==> forall j :: 0 <= j < |rows| && Runnable(rows[j], now) ==>
              || rows[r.value].availableAtMs < rows[j].availableAtMs
              || (rows[r.value].availableAtMs == rows[j].availableAtMs && rows[r.value].id <= rows[j].id)
    ensures r.None? ==> forall j :: 0 <= j < |rows| ==> !Runnable(rows[j], now)
  {
    if rows == [] then None
    else
      var n := |rows| - 1;
      var front := NextRunnable(rows[..n], now);
      assert forall j :: 0 <= j < n ==> rows[j] == rows[..n][j];
      if Runnable(rows[n], now) && (front.None? || !KeyAtMost(rows[front.value], rows[n])) then Some(n) else front
  }

  /** Earliest availability among the retrying rows. */
  function NextRetryAt(rows: seq<JobRow>): (r: Option<int>)
    ensures r.Some? ==> exists j :: 0 <= j < |rows| && rows[j].status == RETRYING && rows[j].availableAtMs == r.value
    ensures r.Some? ==> forall j :: 0 <= j < |rows| && rows[j].status == RETRYING ==> r.value <= rows[j].availableAtMs
    ensures r.None? ==> forall j :: 0 <= j < |rows| ==> rows[j].status != RETRYING
  {
    if rows == [] then None
    else
      var n := |rows| - 1;
      var front, last := NextRetryAt(rows[..n]), rows[n];
      assert forall j :: 0 <= j < n ==> rows[j] == rows[..n][j];
      if last.status == RETRYING && (front.None? || last.availableAtMs < front.value) then Some(last.availableAtMs) else front
  }

  // ---- One execution ----

  const TIMEOUT_TEXT := "temporary upstream timeout"

  function AttemptFailedText(attempt: int): string {
    "attempt " + Decimal(attempt) + " failed permanently later"
  }

  function ExhaustedText(jobType: string, maxAttempts: int): string {
    jobType + " exhausted after " + Decimal(maxAttempts) + " attempts"
  }

  function UnsupportedText(jobType: string, payload: string): string {
    jobType + " does not understand payload `" + payload + "`"
  }

  datatype ProcessedJob = ToRetrying(availableAtMs: int, error: string) | ToSucceeded(output: string) | ToFailed(error: string)

  function Process(payload: string, jobType: string, attempts: int, maxAttempts: int, now: int): ProcessedJob {
    if payload == "ok" then ToSucceeded(jobType + " completed on attempt " + Decimal(attempts))
    else if payload == "flaky" then
      if attempts == 1 then ToRetrying(now + RETRY_DELAY_MS, TIMEOUT_TEXT)
      else ToSucceeded(jobType + " recovered on attempt " + Decimal(attempts))
    else if payload == "always-fail" then
      if attempts < maxAttempts then ToRetrying(now + RETRY_DELAY_MS, AttemptFailedText(attempts))
      else ToFailed(ExhaustedText(jobType, maxAttempts))
    else ToFailed(UnsupportedText(jobType, payload))
  }

  function RetryRow(row: JobRow, attempts: int, availableAtMs: int, error: string): JobRow {
    row.(attempts := attempts, status := RETRYING, availableAtMs := availableAtMs, leaseToken := None,
         lastError := Some(error), resultText := None)
  }

  function SucceededRow(row: JobRow, attempts: int, output: string): JobRow {
    row.(attempts := attempts, status := SUCCEEDED, availableAtMs := 0, leaseToken := None, lastError := None,
         resultText := Some(output))
  }

  function FailedRow(row: JobRow, attempts: int, error: string): JobRow {
    row.(attempts := attempts, status := FAILED, availableAtMs := 0, leaseToken := None, lastError := Some(error),
         resultText := None)
  }

  /** The row an execution leaves behind. */
  function Outcome(row: JobRow, now: int): JobRow {
    OutcomeAt(row, row.attempts + 1, now)
  }

  function OutcomeAt(row: JobRow, attempts: int, now: int): JobRow {
    match Process(row.payload, row.jobType, attempts, row.maxAttempts, now)
    case ToRetrying(at, error) => RetryRow(row, attempts, at, error)
    case ToSucceeded(output) => SucceededRow(row, attempts, output)
    case ToFailed(error) => FailedRow(row, attempts, error)
  }

  /** Nothing of the running row but its attempt count is left in the outcome. */
  lemma RunningIsForgotten(row: JobRow, running: JobRow, now: int)
    requires running == row.(attempts := row.attempts + 1, status := running.status, availableAtMs := running.availableAtMs,
                             leaseToken := running.leaseToken, lastError := running.lastError, resultText := running.resultText)
    ensures OutcomeAt(running, running.attempts, now) == Outcome(row, now)
  {
  }

  function LeaseText(now: int, sequence: nat): string {
    "lease-" + Decimal(now) + "-" + Numeral(sequence, false)
  }

  // ---- What the runner does to one job ----

  function QueuedRow(id: int, jobType: string, payload: string, maxAttempts: int): JobRow {
    JobRow(id, jobType, payload, 0, maxAttempts, QUEUED, 0, None, None, None)
  }

  /** The row with which the job was enqueued. */
  function Origin(row: JobRow): JobRow {
    QueuedRow(row.id, row.jobType, row.payload, row.maxAttempts)
  }

  ghost predicate Enqueued(row: JobRow) {
    row == Origin(row) && row.id > 0 && !Blank(row.jobType) && !Blank(row.payload) && row.maxAttempts > 0
  }

  /** Where a job ends, from its enqueued row alone. */
  function FinalRow(origin: JobRow): JobRow {
    if origin.payload == "ok" then SucceededRow(origin, 1, origin.jobType + " completed on attempt " + Decimal(1))
    else if origin.payload == "flaky" then SucceededRow(origin, 2, origin.jobType + " recovered on attempt " + Decimal(2))
    else if origin.payload == "always-fail" then
      FailedRow(origin, origin.maxAttempts, ExhaustedText(origin.jobType, origin.maxAttempts))
    else FailedRow(origin, 1, UnsupportedText(origin.jobType, origin.payload))
  }

  /** A retrying row of the job after its given number of attempts. */
  ghost predicate Waiting(origin: JobRow, row: JobRow) {
    && (origin.payload == "flaky" || origin.payload == "always-fail")
    && row.lastError.Some? && !Blank(row.lastError.value)
    && row == RetryRow(origin, row.attempts, row.availableAtMs, row.lastError.value)
    && 1 <= row.attempts <= origin.maxAttempts && (origin.payload == "flaky" ==> row.attempts == 1)
  }

  /** A single-attempt "flaky" job succeeds only on the second attempt it does not have. */
  ghost predicate FinalWithin(origin: JobRow) {
    FinalRow(origin).attempts <= origin.maxAttempts
  }

  /** Every row that a sequence of calls can leave for a job. */
  ghost predicate Known(row: JobRow) {
    && Enqueued(Origin(row))
    && (row == Origin(row) || (row == FinalRow(Origin(row)) && FinalWithin(Origin(row))) || Waiting(Origin(row), row))
  }

  /**
   * The enqueued job, executed first at `start`, will be stored in a retrying row that no validator
   * accepts: its only attempt is used up, or its first retry falls due at or before time zero.
   */
  predicate Doomed(origin: JobRow, start: int) {
    || (origin.payload == "flaky" && (origin.maxAttempts == 1 || start <= -RETRY_DELAY_MS))
    || (origin.payload == "always-fail" && origin.maxAttempts > 1 && start <= -RETRY_DELAY_MS)
  }

  /** The row is, or is about to become, a retrying row that no validator accepts. */
  predicate Stuck(row: JobRow, now: int) {
    || (row.status == QUEUED && Doomed(row, now))
    || (row.status == RETRYING && (row.attempts >= row.maxAttempts || row.availableAtMs <= 0))
  }

  ghost predicate AllKnown(rows: seq<JobRow>) {
    forall i :: 0 <= i < |rows| ==> Known(rows[i]) && rows[i].id == i + 1
  }

  ghost predicate NoneStuck(rows: seq<JobRow>, now: int) {
    forall i :: 0 <= i < |rows| ==> !Stuck(rows[i], now)
  }

  /** The same jobs, each with any row of its own. */
  ghost predicate SameJobs(before: seq<JobRow>, after: seq<JobRow>) {
    |before| == |after| && forall i :: 0 <= i < |before| ==> Origin(before[i]) == Origin(after[i])
  }

  ghost predicate AllFinal(before: seq<JobRow>, rows: seq<JobRow>) {
    |rows| == |before| && forall i :: 0 <= i < |rows| ==> rows[i] == FinalRow(Origin(before[i]))
  }

  ghost predicate AttemptsBounded(rows: seq<JobRow>) {
    forall i :: 0 <= i < |rows| ==> 0 <= rows[i].attempts <= rows[i].maxAttempts
  }

  ghost predicate NoneQueued(rows: seq<JobRow>) {
    forall i :: 0 <= i < |rows| ==> rows[i].status != QUEUED
  }

  ghost predicate MustWait(rows: seq<JobRow>, now: int) {
    NextRetryAt(rows).Some? && NextRetryAt(rows).value > now
  }

  lemma NonBlankPrefix(s: string, k: nat)
    requires k < |s| && !IsWhitespace(s[k])
    ensures !Blank(s)
  {
    assert s[k] in s;
  }

  lemma RetryTextsAreNotBlank(attempts: int)
    ensures !Blank(TIMEOUT_TEXT) && !Blank(AttemptFailedText(attempts))
  {
    assert TIMEOUT_TEXT[0] == 't';
    assert AttemptFailedText(attempts)[0] == 'a';
    NonBlankPrefix(TIMEOUT_TEXT, 0);
    NonBlankPrefix(AttemptFailedText(attempts), 0);
  }

  /** A waiting row rehydrates exactly when an attempt is left and it falls due after time zero. */
  lemma WaitingRehydrates(origin: JobRow, row: JobRow)
    requires Enqueued(origin) && Waiting(origin, row)
    ensures IsRetrying(row).Ok? <==> row.attempts < row.maxAttempts && row.availableAtMs > 0
  {
    assert origin.jobType != "" && origin.payload != "";
  }

  lemma KnownRow(row: JobRow)
    requires Known(row)
    ensures row.status == QUEUED ==> row == Origin(row)
    ensures row.status == RETRYING ==> Waiting(Origin(row), row)
    ensures row.status != QUEUED && row.status != RETRYING ==> row == FinalRow(Origin(row)) && FinalWithin(Origin(row))
    ensures 0 <= row.attempts <= row.maxAttempts
  {
    StatusesDiffer();
  }

  /** A runnable row rehydrates unless it is a stuck waiting row. */
  lemma RunnableRow(row: JobRow, now: int)
    requires Known(row) && Runnable(row, now)
    ensures row == Origin(row) || Waiting(Origin(row), row)
    ensures Rebuilt(VALIDATORS, row).Ok? <==> row.status == QUEUED || !Stuck(row, now)
  {
    StatusesDiffer();
    KnownRow(row);
    RebuiltByStatus(row);
    assert row.jobType != "" && row.payload != "";
    if row.status == RETRYING { WaitingRehydrates(Origin(row), row); }
  }

  lemma FirstExecution(origin: JobRow, now: int)
    requires Enqueued(origin)
    ensures var next := Outcome(origin, now);
            && Known(next) && next.status != QUEUED && Origin(next) == origin
            && (Stuck(next, now) <==> Doomed(origin, now))
  {
    StatusesDiffer();
    RetryTextsAreNotBlank(1);
    var next := Outcome(origin, now);
    if origin.payload == "flaky" || (origin.payload == "always-fail" && origin.maxAttempts > 1) {
      assert Waiting(origin, next);
    }
  }

  lemma LaterExecution(row: JobRow, now: int)
    requires Known(row) && Waiting(Origin(row), row) && !Stuck(row, now) && row.availableAtMs <= now
    ensures var next := Outcome(row, now);
            Known(next) && next.status != QUEUED && Origin(next) == Origin(row) && !Stuck(next, now)
  {
    StatusesDiffer();
    RetryTextsAreNotBlank(row.attempts + 1);
    var origin, next := Origin(row), Outcome(row, now);
    if origin.payload == "always-fail" && row.attempts + 1 < origin.maxAttempts {
      assert Waiting(origin, next);
    } else {
      assert next == FinalRow(origin);
    }
  }

  lemma OutcomeCounts(row: JobRow, now: int)
    ensures Outcome(row, now).attempts == row.attempts + 1
  {
  }

  /** An execution keeps the job on its path, uses one attempt and makes no row stuck or unstuck. */
  lemma OneExecution(row: JobRow, now: int)
    requires Known(row) && Runnable(row, now) && Rebuilt(VALIDATORS, row).Ok?
    ensures var next := Outcome(row, now);
            && Known(next) && next.status != QUEUED && Origin(next) == Origin(row)
            && (Stuck(next, now) <==> Stuck(row, now))
            && next.attempts == row.attempts + 1
  {
    RunnableRow(row, now);
    KnownRow(row);
    OutcomeCounts(row, now);
    StatusesDiffer();
    if row.status == QUEUED {
      FirstExecution(row, now);
    } else {
      LaterExecution(row, now);
    }
  }

  /** The job has another attempt after the one now due. */
  ghost predicate TriesAgain(row: JobRow) {
    (row.payload == "flaky" && row.attempts == 0) || (row.payload == "always-fail" && row.attempts + 1 < row.maxAttempts)
  }

  /**
   * An execution at `now` either puts the job off for a second with the error of its attempt, or
   * leaves the job's final row.
   */
  ghost predicate LeftAs(row: JobRow, after: JobRow, now: int) {
    if TriesAgain(row) then
      && after.status == "retrying" && after.attempts == row.attempts + 1 && after.availableAtMs == now + 1000
      && after.lastError == Some(if row.payload == "flaky" then "temporary upstream timeout"
                                 else "attempt " + Decimal(row.attempts + 1) + " failed permanently later")
      && after.leaseToken.None? && after.resultText.None?
      && forall time :: Runnable(after, time) <==> now + 1000 <= time
    else after == FinalRow(Origin(row)) && forall time :: !Runnable(after, time)
  }

  lemma ExecutionMeans(row: JobRow, now: int)
    requires Known(row) && Runnable(row, now) && Rebuilt(VALIDATORS, row).Ok?
    ensures LeftAs(row, Outcome(row, now), now) && Origin(Outcome(row, now)) == Origin(row)
  {
    StatusesDiffer();
    RunnableRow(row, now);
    if row.status == RETRYING {
      WaitingRehydrates(Origin(row), row);
    }
    assert "flaky" != "ok" && "always-fail" != "ok" && "always-fail" != "flaky" by {
      assert |"ok"| == 2 && |"flaky"| == 5;
    }
  }

  /** Accepted payloads the executor understands. */
  predicate Understood(payload: string) {
    payload == "ok" || payload == "flaky" || payload == "always-fail"
  }

  lemma FinalRowBuilds(row: JobRow)
    requires row.status == SUCCEEDED || row.status == FAILED
    ensures Rebuilt(VALIDATORS, row) == if row.status == SUCCEEDED then IsSucceeded(row) else IsFailed(row)
  {
    StatusesDiffer();
    var first := FirstAccepting(VALIDATORS, row);
    assert VALIDATORS[0].check(row) == IsQueued(row) && VALIDATORS[1].check(row) == IsRunning(row);
    assert VALIDATORS[2].check(row) == IsRetrying(row);
    assert VALIDATORS[3].check(row) == IsSucceeded(row) && VALIDATORS[4].check(row) == IsFailed(row);
    if row.status == SUCCEEDED {
      assert first == if IsSucceeded(row).Ok? then Some(3) else None;
    } else {
      assert first == if IsFailed(row).Ok? then Some(4) else None;
    }
  }

  /**
   * A final row rehydrates exactly when the payload was understood or the first attempt was the only
   * one: a payload that is not understood fails at once, and a failed row must have used all attempts.
   */
  lemma FinalRowsRehydrate(origin: JobRow)
    requires Enqueued(origin) && FinalWithin(origin)
    ensures Rebuilt(VALIDATORS, FinalRow(origin)).Ok? <==> Understood(origin.payload) || origin.maxAttempts == 1
    ensures Rebuilt(VALIDATORS, FinalRow(origin)).Ok? ==>
              (Rebuilt(VALIDATORS, FinalRow(origin)).value.Succeeded? <==> origin.payload in ["ok", "flaky"])
    ensures Rebuilt(VALIDATORS, FinalRow(origin)).Ok? ==>
              (Rebuilt(VALIDATORS, FinalRow(origin)).value.Failed? <==> origin.payload !in ["ok", "flaky"])
  {
    assert origin.jobType != "" && origin.payload != "";
    FinalRowBuilds(FinalRow(origin));
  }

  /** An accepted job whose final row no validator accepts: its payload is not understood and one attempt is left over. */
  lemma UnsupportedPayloadIsLost()
    ensures Enqueued(QueuedRow(1, "t", "other", 2))
    ensures Rebuilt(VALIDATORS, FinalRow(QueuedRow(1, "t", "other", 2))).Err?
  {
    NonBlankPrefix("t", 0);
    NonBlankPrefix("other", 0);
    assert "other"[0] == 'o' && "other"[1] == 't' && "ok"[1] == 'k';
    FinalRowsRehydrate(QueuedRow(1, "t", "other", 2));
  }

  // ---- What the runner does to all jobs ----

  function UsedAttempts(rows: seq<JobRow>): int {
    if rows == [] then 0 else UsedAttempts(rows[..|rows| - 1]) + rows[|rows| - 1].attempts
  }

  function TotalAttempts(rows: seq<JobRow>): int {
    if rows == [] then 0 else TotalAttempts(rows[..|rows| - 1]) + rows[|rows| - 1].maxAttempts
  }

  lemma {:induction false} UsedWithinTotal(rows: seq<JobRow>)
    requires AttemptsBounded(rows)
    ensures 0 <= UsedAttempts(rows) <= TotalAttempts(rows)
  {
    if rows == [] {
    } else {
      UsedWithinTotal(rows[..|rows| - 1]);
    }
  }

  lemma {:induction false} SameTotal(before: seq<JobRow>, after: seq<JobRow>)
    requires SameJobs(before, after)
    ensures TotalAttempts(before) == TotalAttempts(after)
  {
    if before == [] {
    } else {
      var n := |before| - 1;
      SameTotal(before[..n], after[..n]);
      assert Origin(before[n]) == Origin(after[n]);
    }
  }

  lemma {:induction false} UsedUpdate(rows: seq<JobRow>, i: nat, row: JobRow)
    requires i < |rows|
    ensures UsedAttempts(rows[i := row]) == UsedAttempts(rows) + row.attempts - rows[i].attempts
  {
    var n := |rows| - 1;
    var updated := rows[i := row];
    if i == n {
      assert updated[..n] == rows[..n];
    } else {
      assert updated[..n] == rows[..n][i := row];
      UsedUpdate(rows[..n], i, row);
    }
  }

  lemma KnownBounds(rows: seq<JobRow>)
    requires AllKnown(rows)
    ensures AttemptsBounded(rows) && 0 <= UsedAttempts(rows) <= TotalAttempts(rows)
  {
    forall i | 0 <= i < |rows| ensures 0 <= rows[i].attempts <= rows[i].maxAttempts {
      KnownRow(rows[i]);
    }
    UsedWithinTotal(rows);
  }

  lemma UsedAppend(rows: seq<JobRow>, row: JobRow)
    ensures UsedAttempts(rows + [row]) == UsedAttempts(rows) + row.attempts
  {
    assert (rows + [row])[..|rows|] == rows;
  }

  lemma NewJobIsKnown(rows: seq<JobRow>, row: JobRow)
    requires AllKnown(rows) && Enqueued(row) && row.id == |rows| + 1
    ensures AllKnown(rows + [row])
  {
    assert Known(row);
    forall i | 0 <= i < |rows + [row]| ensures Known((rows + [row])[i]) && (rows + [row])[i].id == i + 1 {
      if i < |rows| { assert Known(rows[i]) && rows[i].id == i + 1; }
    }
  }

  /** The rows after one execution of the runnable row `i`. */
  ghost predicate Executed(before: seq<JobRow>, now: int, i: nat, after: seq<JobRow>) {
    && i < |before| && Runnable(before[i], now) && Rebuilt(VALIDATORS, before[i]).Ok?
    && after == before[i := Outcome(before[i], now)]
  }

  /** Executing a selected row keeps every job on its path and uses up one attempt. */
  lemma ExecutionKeepsKnown(before: seq<JobRow>, now: int, i: nat, after: seq<JobRow>)
    requires AllKnown(before) && Executed(before, now, i, after)
    ensures AllKnown(after) && UsedAttempts(after) == UsedAttempts(before) + 1
  {
    OneExecution(before[i], now);
    UsedUpdate(before, i, after[i]);
    forall j | 0 <= j < |after| ensures Known(after[j]) && after[j].id == j + 1 {
      if j == i {
        assert after[j].id == Origin(after[j]).id == Origin(before[j]).id;
      } else {
        assert after[j] == before[j];
      }
    }
  }

  /** One row was executed, and the others are as they were. */
  ghost predicate OneLeft(before: seq<JobRow>, after: seq<JobRow>, now: int) {
    exists i :: 0 <= i < |before| && Runnable(before[i], now) && |after| == |before|
                && LeftAs(before[i], after[i], now) && forall j :: 0 <= j < |before| && j != i ==> after[j] == before[j]
  }

  lemma ExecutionLeaves(before: seq<JobRow>, now: int, i: nat, after: seq<JobRow>)
    requires AllKnown(before) && Executed(before, now, i, after)
    ensures OneLeft(before, after, now)
  {
    ExecutionMeans(before[i], now);
    assert LeftAs(before[i], after[i], now);
  }

  lemma ExecutionKeepsJobs(before: seq<JobRow>, now: int, i: nat, after: seq<JobRow>)
    requires AllKnown(before) && Executed(before, now, i, after)
    ensures SameJobs(before, after)
    ensures NoneStuck(after, now) <==> NoneStuck(before, now)
  {
    OneExecution(before[i], now);
    forall j | 0 <= j < |before| ensures Stuck(after[j], now) <==> Stuck(before[j], now) {
      assert j != i ==> after[j] == before[j];
    }
  }

  lemma StuckRowIsFound(rows: seq<JobRow>, now: int, i: nat)
    requires AllKnown(rows) && i < |rows| && Runnable(rows[i], now) && Rebuilt(VALIDATORS, rows[i]).Err?
    ensures !NoneStuck(rows, now)
  {
    RunnableRow(rows[i], now);
    assert Stuck(rows[i], now);
  }

  lemma NothingRunnable(rows: seq<JobRow>, now: int)
    requires NextRunnable(rows, now).None?
    ensures NoneQueued(rows)
    ensures NextRetryAt(rows).Some? ==> NextRetryAt(rows).value > now
  {
    forall i | 0 <= i < |rows| ensures rows[i].status != QUEUED {
      assert !Runnable(rows[i], now);
    }
    if NextRetryAt(rows).Some? {
      var j :| 0 <= j < |rows| && rows[j].status == RETRYING && rows[j].availableAtMs == NextRetryAt(rows).value;
      assert !Runnable(rows[j], now);
    }
  }

  /** Once nothing is queued, time does not decide what is stuck. */
  lemma WaitingKeepsStuck(rows: seq<JobRow>, now: int, later: int)
    requires NoneQueued(rows)
    ensures NoneStuck(rows, later) <==> NoneStuck(rows, now)
  {
    forall i | 0 <= i < |rows| ensures Stuck(rows[i], later) <==> Stuck(rows[i], now) {
    }
  }

  lemma IdleMeansFinal(before: seq<JobRow>, rows: seq<JobRow>, now: int)
    requires AllKnown(rows) && SameJobs(before, rows) && NoneQueued(rows) && NextRetryAt(rows).None?
    ensures AllFinal(before, rows) && NoneStuck(rows, now)
  {
    StatusesDiffer();
    forall i | 0 <= i < |rows| ensures rows[i] == FinalRow(Origin(before[i])) && !Stuck(rows[i], now) {
      KnownRow(rows[i]);
      assert Origin(before[i]) == Origin(rows[i]);
    }
  }

  // ---- The run until nothing is left to do ----

  /** The run that began with `first` at `start` has come to `rows` at `now`. */
  ghost predicate InRun(first: seq<JobRow>, start: int, rows: seq<JobRow>, now: int) {
    SameJobs(first, rows) && start <= now && (NoneStuck(rows, now) <==> NoneStuck(first, start))
  }

  function Unused(rows: seq<JobRow>): int {
    TotalAttempts(rows) - UsedAttempts(rows)
  }

  lemma InRunOn(first: seq<JobRow>, start: int, before: seq<JobRow>, at: int, rows: seq<JobRow>, now: int)
    requires InRun(first, start, before, at) && InRun(before, at, rows, now)
    ensures InRun(first, start, rows, now)
  {
    forall j | 0 <= j < |first| ensures Origin(first[j]) == Origin(rows[j]) {
      assert Origin(before[j]) == Origin(rows[j]);
    }
  }

  /** One round of the loop: it goes on, finds nothing left to do, or fails. */
  datatype Round = Again | Idle | Broken(error: RunnerError)

  lemma RoundExecutes(before: seq<JobRow>, now: int, i: nat, after: seq<JobRow>)
    requires AllKnown(before) && Executed(before, now, i, after)
    ensures InRun(before, now, after, now) && Unused(after) == Unused(before) - 1
  {
    ExecutionKeepsKnown(before, now, i, after);
    ExecutionKeepsJobs(before, now, i, after);
    SameTotal(before, after);
  }

  lemma RoundWaits(rows: seq<JobRow>, now: int, later: int)
    requires NextRunnable(rows, now).None? && now <= later
    ensures InRun(rows, now, rows, later)
  {
    NothingRunnable(rows, now);
    WaitingKeepsStuck(rows, now, later);
  }

  lemma RoundEnds(rows: seq<JobRow>, now: int)
    requires AllKnown(rows) && NextRunnable(rows, now).None? && !MustWait(rows, now)
    ensures AllFinal(rows, rows) && NoneStuck(rows, now)
  {
    NothingRunnable(rows, now);
    IdleMeansFinal(rows, rows, now);
  }

  lemma RunEnds(first: seq<JobRow>, start: int, rows: seq<JobRow>, now: int)
    requires InRun(first, start, rows, now) && AllFinal(rows, rows) && NoneStuck(rows, now)
    ensures AllFinal(first, rows) && NoneStuck(first, start)
  {
    forall i | 0 <= i < |rows| ensures rows[i] == FinalRow(Origin(first[i])) {
      assert Origin(first[i]) == Origin(rows[i]);
    }
  }

  /** Fresh jobs at a time from zero on are not stuck, if every "flaky" one has a second attempt. */
  lemma FreshJobsAreNotStuck(rows: seq<JobRow>, now: int)
    requires AllKnown(rows) && now >= 0
    requires forall i :: 0 <= i < |rows| ==> rows[i].status == QUEUED && (rows[i].payload == "flaky" ==> rows[i].maxAttempts >= 2)
    ensures NoneStuck(rows, now)
  {
    StatusesDiffer();
    forall i | 0 <= i < |rows| ensures !Stuck(rows[i], now) {
      KnownRow(rows[i]);
    }
  }

  /** Jobs that the runner accepts and cannot finish: one attempt too few, or a retry due at time zero. */
  lemma DoomedJobsAreAccepted()
    ensures Enqueued(QueuedRow(1, "t", "flaky", 1)) && Stuck(QueuedRow(1, "t", "flaky", 1), 0)
    ensures Enqueued(QueuedRow(1, "t", "flaky", 2)) && Stuck(QueuedRow(1, "t", "flaky", 2), -RETRY_DELAY_MS)
  {
    NonBlankPrefix("t", 0);
    NonBlankPrefix("flaky", 0);
  }

  // ---- Lease tokens ----

  /** Each token was made from some time and its own place in the sequence. */
  ghost predicate LeasesIssued(leases: seq<string>, sequence: nat) {
    |leases| == sequence && forall k :: 0 <= k < |leases| ==> IssuedAs(leases[k], k + 1)
  }

  lemma IssuedNow(now: int, sequence: nat)
    ensures IssuedAs(LeaseText(now, sequence), sequence)
  {
  }

  lemma IssueOneMore(leases: seq<string>, sequence: nat, token: string)
    requires LeasesIssued(leases, sequence) && IssuedAs(token, sequence + 1)
    ensures LeasesIssued(leases + [token], sequence + 1)
  {
    var longer := leases + [token];
    forall k | 0 <= k < |longer| ensures IssuedAs(longer[k], k + 1) {
      if k < |leases| { assert IssuedAs(leases[k], k + 1); }
    }
  }

  ghost predicate IssuedAs(lease: string, sequence: nat) {
    exists now :: lease == LeaseText(now, sequence)
  }

  lemma DecimalInjective(a: int, b: int)
    requires Decimal(a) == Decimal(b)
    ensures a == b
  {
    DashFree(if a < 0 then -a else a);
    DashFree(if b < 0 then -b else b);
    var x, y := Decimal(a), Decimal(b);
    assert x[0] == y[0];
    assert a >= 0 ==> x[0] in Numeral(a, false);
    assert b >= 0 ==> y[0] in Numeral(b, false);
    assert a < 0 ==> x[0] == '-' && x[1..] == Numeral(-a, false);
    assert b < 0 ==> y[0] == '-' && y[1..] == Numeral(-b, false);
    NumeralInjective(if a < 0 then -a else a, if b < 0 then -b else b, false);
  }

  /** A token without its sequence number gives the time. */
  lemma LeaseHead(now: int, sequence: nat)
    ensures |LeaseText(now, sequence)| == 7 + |Decimal(now)| + |Numeral(sequence, false)|
    ensures LeaseText(now, sequence)[6..6 + |Decimal(now)|] == Decimal(now)
  {
    var head, tail := "lease-", "-" + Numeral(sequence, false);
    assert |head| == 6;
    assert LeaseText(now, sequence) == head + (Decimal(now) + tail);
    assert (head + (Decimal(now) + tail))[6..] == Decimal(now) + tail;
  }

  /** Equal tokens were issued under the same sequence number at the same time: numerals hold no dash. */
  lemma LeaseTextInjective(now1: int, sequence1: nat, now2: int, sequence2: nat)
    requires LeaseText(now1, sequence1) == LeaseText(now2, sequence2)
    ensures sequence1 == sequence2 && now1 == now2
  {
    var text, x, y := LeaseText(now1, sequence1), Numeral(sequence1, false), Numeral(sequence2, false);
    DashFree(sequence1);
    DashFree(sequence2);
    var i, j := |text| - |x| - 1, |text| - |y| - 1;
    assert text[i] == '-' && text[i + 1..] == x;
    assert text[j] == '-' && text[j + 1..] == y;
    forall k | i < k < |text| ensures text[k] != '-' { assert text[k] == x[k - i - 1] && x[k - i - 1] in x; }
    forall k | j < k < |text| ensures text[k] != '-' { assert text[k] == y[k - j - 1] && y[k - j - 1] in y; }
    assert i == j;
    NumeralInjective(sequence1, sequence2, false);
    LeaseHead(now1, sequence1);
    LeaseHead(now2, sequence2);
    DecimalInjective(now1, now2);
  }

  lemma DashFree(n: nat)
    ensures '-' !in Numeral(n, false)
  {
    assert '-' !in DIGITS;
  }

  lemma IssuedOnce(lease: string, sequence1: nat, sequence2: nat)
    requires IssuedAs(lease, sequence1) && IssuedAs(lease, sequence2)
    ensures sequence1 == sequence2
  {
    var a :| lease == LeaseText(a, sequence1);
    var b :| lease == LeaseText(b, sequence2);
    LeaseTextInjective(a, sequence1, b, sequence2);
  }

  lemma LeasesAreDistinct(leases: seq<string>, sequence: nat)
    requires LeasesIssued(leases, sequence)
    ensures Distinct(leases)
  {
    forall i, j | 0 <= i < j < |leases| ensures leases[i] != leases[j] {
      if leases[i] == leases[j] {
        IssuedOnce(leases[i], i + 1, j + 1);
      }
    }
  }

  lemma RunBounds(first: seq<JobRow>, rows: seq<JobRow>, leases: seq<string>, sequence: nat)
    requires AllKnown(first) && AllKnown(rows) && SameJobs(first, rows) && LeasesIssued(leases, sequence)
    ensures AttemptsBounded(rows) && Distinct(leases)
    ensures UsedAttempts(rows) - UsedAttempts(first) <= TotalAttempts(first)
  {
    KnownBounds(first);
    KnownBounds(rows);
    SameTotal(first, rows);
    LeasesAreDistinct(leases, sequence);
  }

  // ---- The runner ----

  class JobRunner {
    var rows: seq<JobRow>
    var nowMs: int
    var leaseSequence: nat
    /** Every lease token handed out, in order. */
    ghost var leases: seq<string>

    /** What every public call keeps: known rows, and one lease for each attempt used. */
    ghost predicate Valid()
      reads this
    {
      AllKnown(rows) && LeasesIssued(leases, leaseSequence) && |leases| == UsedAttempts(rows)
    }

    constructor ()
      ensures Valid() && rows == [] && nowMs == 0 && leaseSequence == 0 && leases == []
    {
      rows, nowMs, leaseSequence, leases := [], 0, 0, [];
    }

    method Enqueue(jobType: string, payload: string, maxAttempts: int) returns (result: Result<int, RunnerError>)
      requires Valid()
      modifies this`rows
      ensures Valid()
      ensures result.Ok? <==> !Blank(jobType) && !Blank(payload) && maxAttempts > 0
      ensures result.Ok? ==> result.value == |old(rows)| + 1 && rows == old(rows) + [QueuedRow(result.value, jobType, payload, maxAttempts)]
      ensures result.Err? ==> rows == old(rows)
      ensures result.Err? ==> result.error == InvalidJobConfig(
                                if Blank(jobType) then "job_type is required"
                                else if Blank(payload) then "payload is required"
                                else "max_attempts must be greater than zero")
    {
      if Blank(jobType) {
        return Err(InvalidJobConfig("job_type is required"));
      }
      if Blank(payload) {
        return Err(InvalidJobConfig("payload is required"));
      }
      if maxAttempts <= 0 {
        return Err(InvalidJobConfig("max_attempts must be greater than zero"));
      }
      var row := JobRow(|rows| + 1, jobType, payload, 0, maxAttempts, QUEUED, 0, None, None, None);
      NewJobIsKnown(rows, row);
      UsedAppend(rows, row);
      rows := rows + [row];
      return Ok(row.id);
    }

    method AdvanceTime(deltaMs: int)
      requires Valid()
      modifies this`nowMs
      ensures Valid()
      ensures nowMs == old(nowMs) + deltaMs
    {
      nowMs := nowMs + deltaMs;
    }

    method NextLeaseToken() returns (token: string)
      requires LeasesIssued(leases, leaseSequence)
      modifies this`leaseSequence, this`leases
      ensures leaseSequence == old(leaseSequence) + 1
      ensures token == LeaseText(nowMs, leaseSequence) && leases == old(leases) + [token]
      ensures LeasesIssued(leases, leaseSequence)
    {
      leaseSequence := leaseSequence + 1;
      token := LeaseText(nowMs, leaseSequence);
      IssuedNow(nowMs, leaseSequence);
      IssueOneMore(leases, leaseSequence - 1, token);
      leases := leases + [token];
    }

    /** Selects, rehydrates, leases, executes and persists one row. */
    method RunNext() returns (result: Result<bool, RunnerError>)
      requires Valid()
      modifies this
      ensures Valid() && nowMs == old(nowMs)
      ensures match NextRunnable(old(rows), nowMs)
              case None => result == Ok(false) && rows == old(rows) && leases == old(leases) && leaseSequence == old(leaseSequence)
              case Some(i) =>
                match Rebuilt(VALIDATORS, old(rows)[i])
                case Err(_) =>
                  result == Err(CorruptState) && rows == old(rows) && leases == old(leases) && leaseSequence == old(leaseSequence)
                case Ok(_) =>
                  && result == Ok(true)
                  && rows == old(rows)[i := Outcome(old(rows)[i], nowMs)]
                  && leaseSequence == old(leaseSequence) + 1
                  && leases == old(leases) + [LeaseText(nowMs, leaseSequence)]
      ensures result == Ok(true) ==> OneLeft(old(rows), rows, nowMs)
    {
      var next := NextRunnable(rows, nowMs);
      if next.None? {
        return Ok(false);
      }
      var i := next.value;
      var row := rows[i];
      var machine := Build(VALIDATORS, row);
      if machine.Err? {
        return Err(CorruptState);
      }
      RebuiltByStatus(row);
      if !machine.value.Queued? && !machine.value.Retrying? {
        return Err(UnexpectedRunnableState);
      }
      ghost var before := rows;
      var token := NextLeaseToken();
      var attempts := row.attempts + 1;
      var running := row.(attempts := attempts, status := RUNNING, availableAtMs := 0, leaseToken := Some(token),
                          lastError := None, resultText := None);
      rows := rows[i := running];
      var finished := ExecuteRow(running);
      rows := rows[i := finished];
      RunningIsForgotten(row, running, nowMs);
      assert rows == before[i := finished];
      ExecutionKeepsKnown(before, nowMs, i, rows);
      ExecutionLeaves(before, nowMs, i, rows);
      return Ok(true);
    }

    /** Processes a running row and gives the row that is stored for the outcome. */
    method ExecuteRow(running: JobRow) returns (finished: JobRow)
      ensures finished == OutcomeAt(running, running.attempts, nowMs)
    {
      match Process(running.payload, running.jobType, running.attempts, running.maxAttempts, nowMs) {
        case ToRetrying(at, error) => finished := RetryRow(running, running.attempts, at, error);
        case ToSucceeded(output) => finished := SucceededRow(running, running.attempts, output);
        case ToFailed(error) => finished := FailedRow(running, running.attempts, error);
      }
    }

    /** The body of the loop: executes one row, or moves the time to the next retry. */
    method RunRound() returns (round: Round)
      requires Valid()
      modifies this
      ensures Valid() && InRun(old(rows), old(nowMs), rows, nowMs) && old(leases) <= leases
      ensures round.Again? ==>
                || Unused(rows) < Unused(old(rows))
                || (rows == old(rows) && MustWait(rows, old(nowMs)) && !MustWait(rows, nowMs))
      ensures round.Idle? ==> AllFinal(rows, rows) && NoneStuck(rows, nowMs)
      ensures round.Broken? ==> round.error == CorruptState && !NoneStuck(rows, nowMs)
    {
      ghost var before, i := rows, NextRunnable(rows, nowMs);
      var ran := RunNext();
      if ran.Err? {
        StuckRowIsFound(before, nowMs, i.value);
        return Broken(ran.error);
      }
      if ran.value {
        RoundExecutes(before, nowMs, i.value, rows);
        return Again;
      }
      var retry := NextRetryAt(rows);
      if retry.None? {
        RoundEnds(rows, nowMs);
        return Idle;
      }
      if retry.value > nowMs {
        RoundWaits(rows, nowMs, retry.value);
        nowMs := retry.value;
        return Again;
      }
      RoundEnds(rows, nowMs);
      return Idle;
    }

    /**
     * After any calls before, the loop ends. It succeeds exactly when no row is stuck at the start;
     * then every job has its final row, whatever the schedule was.
     */
    method RunUntilIdle() returns (result: Result<(), RunnerError>)
      requires Valid()
      modifies this
      ensures Valid() && SameJobs(old(rows), rows) && nowMs >= old(nowMs)
      ensures result.Ok? <==> NoneStuck(old(rows), old(nowMs))
      ensures result.Ok? ==> AllFinal(old(rows), rows)
      ensures result.Err? ==> result == Err(CorruptState)
      ensures old(leases) <= leases && Distinct(leases)
      ensures |leases| - |old(leases)| == UsedAttempts(rows) - UsedAttempts(old(rows)) <= TotalAttempts(old(rows))
      ensures AttemptsBounded(rows)
    {
      ghost var first, start, issued := rows, nowMs, leases;
      while true
        invariant Valid() && InRun(first, start, rows, nowMs) && issued <= leases
        decreases Unused(rows), if MustWait(rows, nowMs) then 1 else 0
      {
        ghost var before, at := rows, nowMs;
        KnownBounds(rows);
        var round := RunRound();
        InRunOn(first, start, before, at, rows, nowMs);
        RunBounds(first, rows, leases, leaseSequence);
        match round {
          case Again =>
          case Idle =>
            RunEnds(first, start, rows, nowMs);
            return Ok(());
          case Broken(error) =>
            return Err(error);
        }
      }
    }
  }

  // ---- Sequences of calls ----

  datatype Call = EnqueueCall(jobType: string, payload: string, maxAttempts: int) | AdvanceCall(deltaMs: int) | NextCall | IdleCall

  /**
   * Any sequence of public calls ends, whatever fails on the way. Then every lease is one used
   * attempt, no two leases are equal, and no job has used more attempts than it may.
   */
  method PerformAll(calls: seq<Call>) returns (runner: JobRunner)
    ensures fresh(runner) && runner.Valid()
    ensures AttemptsBounded(runner.rows) && Distinct(runner.leases)
    ensures |runner.leases| == UsedAttempts(runner.rows) <= TotalAttempts(runner.rows)
  {
    runner := new JobRunner();
    for k := 0 to |calls|
      invariant fresh(runner) && runner.Valid()
    {
      match calls[k] {
        case EnqueueCall(jobType, payload, maxAttempts) =>
          var id := runner.Enqueue(jobType, payload, maxAttempts);
        case AdvanceCall(deltaMs) =>
          runner.AdvanceTime(deltaMs);
        case NextCall =>
          var ran := runner.RunNext();
        case IdleCall =>
          var idle := runner.RunUntilIdle();
      }
    }
    KnownBounds(runner.rows);
    LeasesAreDistinct(runner.leases, runner.leaseSequence);
  }

  /** An accepted job with one attempt too few: the run fails. */
  method SingleAttemptFlakyFails() returns (result: Result<(), RunnerError>)
    ensures result == Err(CorruptState)
  {
    DoomedJobsAreAccepted();
    var runner := new JobRunner();
    var id := runner.Enqueue("t", "flaky", 1);
    assert Stuck(runner.rows[0], runner.nowMs);
    result := runner.RunUntilIdle();
  }

  /** An accepted job whose retry falls due at time zero: the run fails. */
  method RetryAtTimeZeroFails() returns (result: Result<(), RunnerError>)
    ensures result == Err(CorruptState)
  {
    DoomedJobsAreAccepted();
    var runner := new JobRunner();
    runner.AdvanceTime(-RETRY_DELAY_MS);
    var id := runner.Enqueue("t", "flaky", 2);
    assert Stuck(runner.rows[0], runner.nowMs);
    result := runner.RunUntilIdle();
  }
}
