/** Operation tasks: the aggregate, the row updates and the outcome of one step. */
module OperationTasks {
  import opened Wrappers
  import opened Backoff

  type TaskId = nat
  /** Milliseconds since the epoch. */
  type Time = int
  type Json = string
  type JsonObject = map<string, Json>

  /** A JSON column: an object, or something else a row should not hold. */
  datatype StateData = Object(fields: JsonObject) | NotAnObject

  datatype TaskType = CreateIssuer | DeactivateIssuer | RotateKeys

  datatype TaskState = Pending | InProgress | Completed | Failed

  datatype TaskError = TaskError(code: string, message: string)

  datatype WorkerError = DataIntegrity | Decode | NotFound

  datatype StepOutcome =
    | Done(patch: JsonObject)
    | Retry(error: TaskError)
    | Terminal(error: TaskError)

  datatype TaskRow = TaskRow(
    taskType: TaskType,
    state: TaskState,
    step: Option<string>,
    attempts: int,
    nextAttemptAt: Option<Time>,
    error: Option<TaskError>,
    stateData: StateData,
    resultIssuer: Option<string>,
    createdAt: Time,
    updatedAt: Time,
    completedAt: Option<Time>)
  {
    predicate IsTerminal() {
      state == Completed || state == Failed
    }

    predicate IsRunnable(now: Time) {
      !IsTerminal() && (nextAttemptAt.None? || nextAttemptAt.value <= now)
    }
  }

  const HOUR_MS := 3_600_000
  const MAX_TASK_AGE_MS := 24 * HOUR_MS
  const U32_MAX := 0xFFFF_FFFF
  const I32_LIMIT := 0x8000_0000

  function SaturatingInc(a: int): int {
    if a < U32_MAX then a + 1 else U32_MAX
  }

  /** `a as i32` for an unsigned 32-bit value. */
  function AsI32(a: int): int {
    if a < I32_LIMIT then a else a - 0x1_0000_0000
  }

  /** Every task names the issuer it creates or works on from the start. */
  function NewTask(taskType: TaskType, issuer: string, now: Time): TaskRow {
    TaskRow(taskType, Pending, None, 0, None, None, Object(map[]), Some(issuer), now, now, None)
  }

  // ---- The aggregate ----

  function Acquired(task: TaskRow, now: Time): Option<TaskRow> {
    match task.state
    case Pending => Some(task.(state := InProgress, updatedAt := now))
    case InProgress => Some(task.(attempts := SaturatingInc(task.attempts), updatedAt := now))
    case _ => None
  }

  /** The stored row once a claim is committed. */
  function AcquiredRow(row: TaskRow, task: TaskRow): TaskRow {
    row.(state := task.state, attempts := AsI32(task.attempts), updatedAt := task.updatedAt)
  }

  function Finished(task: TaskRow, state: TaskState, error: Option<TaskError>, now: Time): Option<TaskRow> {
    if task.state != InProgress then None
    else Some(task.(state := state, nextAttemptAt := None, error := error, updatedAt := now, completedAt := Some(now)))
  }

  class OperationTask {
    var row: TaskRow

    constructor (row: TaskRow)
      ensures this.row == row
    {
      this.row := row;
    }

    method TryAcquire(now: Time) returns (ok: bool)
      modifies this
      ensures ok <==> !old(row).IsTerminal()
      ensures ok ==> Acquired(old(row), now) == Some(row)
      ensures !ok ==> row == old(row)
      ensures ok <==> old(row).state == Pending || old(row).state == InProgress
      ensures old(row).state == Pending ==> row == old(row).(state := InProgress, updatedAt := now)
      ensures old(row).state == InProgress ==>
                row == old(row).(attempts := if old(row).attempts < 0xFFFF_FFFF then old(row).attempts + 1
                                             else 0xFFFF_FFFF,
                                 updatedAt := now)
    {
      match row.state {
        case Pending =>
          row := row.(state := InProgress);
          row := row.(updatedAt := now);
          ok := true;
        case InProgress =>
          row := row.(attempts := SaturatingInc(row.attempts));
          row := row.(updatedAt := now);
          ok := true;
        case _ => ok := false;
      }
    }

    method TryComplete(now: Time) returns (ok: bool)
      modifies this
      ensures ok <==> old(row).state == InProgress
      ensures ok ==> Finished(old(row), Completed, None, now) == Some(row)
      ensures !ok ==> row == old(row)
      ensures ok ==> row == old(row).(state := Completed, nextAttemptAt := None, error := None, updatedAt := now,
                                      completedAt := Some(now))
    {
      if row.state != InProgress {
        return false;
      }
      row := row.(state := Completed, nextAttemptAt := None);
      row := row.(error := None, updatedAt := now);
      row := row.(completedAt := Some(now));
      ok := true;
    }

    method TryFail(error: TaskError, now: Time) returns (ok: bool)
      modifies this
      ensures ok <==> old(row).state == InProgress
      ensures ok ==> Finished(old(row), Failed, Some(error), now) == Some(row)
      ensures !ok ==> row == old(row)
      ensures ok ==> row == old(row).(state := Failed, nextAttemptAt := None, error := Some(error), updatedAt := now,
                                      completedAt := Some(now))
    {
      if row.state != InProgress {
        return false;
      }
      row := row.(state := Failed, nextAttemptAt := None);
      row := row.(error := Some(error), updatedAt := now);
      row := row.(completedAt := Some(now));
      ok := true;
    }
  }

  // ---- Which step follows which ----

  /** The step names a worker knows, with the step to go on to; None inside is the
      last one, None outside a name it does not know. */
  function Dispatch(taskType: TaskType, step: string): Option<Option<string>> {
    match taskType
    case CreateIssuer =>
      if step == "allocate_did" then Some(Some("generate_keys"))
      else if step == "generate_keys" then Some(Some("build_initial_didlog"))
      else if step == "build_initial_didlog" then Some(Some("publish_didlog"))
      else if step == "publish_didlog" then Some(Some("persist_issuer"))
      else if step == "persist_issuer" then Some(Some("create_status_list_entry"))
      else if step == "create_status_list_entry" then Some(Some("provision_status_list"))
      else if step == "provision_status_list" then Some(None)
      else None
    case DeactivateIssuer =>
      if step == "build_deactivation_didlog" then Some(Some("publish_didlog"))
      else if step == "publish_didlog" then Some(Some("mark_deactivated"))
      else if step == "mark_deactivated" then Some(None)
      else None
    case RotateKeys =>
      if step == "generate_new_keys" then Some(Some("build_rotation_didlog"))
      else if step == "build_rotation_didlog" then Some(Some("publish_didlog"))
      else if step == "publish_didlog" then Some(Some("swap_keys"))
      else if step == "swap_keys" then Some(None)
      else None
  }

  function FirstStep(taskType: TaskType): string {
    match taskType
    case CreateIssuer => "allocate_did"
    case DeactivateIssuer => "build_deactivation_didlog"
    case RotateKeys => "generate_new_keys"
  }

  function CurrentStep(task: TaskRow): string {
    if task.step.Some? then task.step.value else FirstStep(task.taskType)
  }

  /** The documented order of the steps of a task. */
  function Chain(taskType: TaskType): (c: seq<string>)
    ensures |c| == match taskType case CreateIssuer => 7 case DeactivateIssuer => 3 case RotateKeys => 4
  {
    match taskType
    case CreateIssuer => ["allocate_did", "generate_keys", "build_initial_didlog", "publish_didlog",
                          "persist_issuer", "create_status_list_entry", "provision_status_list"]
    case DeactivateIssuer => ["build_deactivation_didlog", "publish_didlog", "mark_deactivated"]
    case RotateKeys => ["generate_new_keys", "build_rotation_didlog", "publish_didlog", "swap_keys"]
  }

  /** Following the worker from a task's first step walks its chain and stops at its end. */
  lemma DispatchFollowsTheChain(taskType: TaskType, k: nat)
    requires k < |Chain(taskType)|
    ensures FirstStep(taskType) == Chain(taskType)[0]
    ensures Chain(taskType) == match taskType
                               case CreateIssuer => ["allocate_did", "generate_keys", "build_initial_didlog",
                                                     "publish_didlog", "persist_issuer", "create_status_list_entry",
                                                     "provision_status_list"]
                               case DeactivateIssuer => ["build_deactivation_didlog", "publish_didlog",
                                                         "mark_deactivated"]
                               case RotateKeys => ["generate_new_keys", "build_rotation_didlog", "publish_didlog",
                                                   "swap_keys"]
    ensures Dispatch(taskType, Chain(taskType)[k]) ==
            Some(if k + 1 < |Chain(taskType)| then Some(Chain(taskType)[k + 1]) else None)
  {
  }

  // ---- Row updates ----

  /** What an advance merges into: a value that is no object counts as empty. */
  function Fields(data: StateData): JsonObject {
    match data
    case Object(fields) => fields
    case NotAnObject => map[]
  }

  function AdvancedRow(row: TaskRow, next: Option<string>, patch: JsonObject, now: Time): TaskRow {
    row.(step := next, attempts := 0, nextAttemptAt := None, error := None,
         stateData := Object(Fields(row.stateData) + patch), updatedAt := now)
  }

  function RetryRow(row: TaskRow, next: Time, error: TaskError, now: Time): TaskRow {
    row.(nextAttemptAt := Some(next), error := Some(error), updatedAt := now)
  }

  function TerminalRow(row: TaskRow, task: TaskRow): TaskRow {
    row.(state := task.state, nextAttemptAt := task.nextAttemptAt, error := task.error,
         resultIssuer := task.resultIssuer, updatedAt := task.updatedAt, completedAt := task.completedAt)
  }

  function FailedRow(row: TaskRow, task: TaskRow, error: TaskError, now: Time): Result<TaskRow, WorkerError> {
    match Finished(task, Failed, Some(error), now)
    case Some(t) => Ok(TerminalRow(row, t))
    case None => Err(DataIntegrity)
  }

  /** What the outcome of a step does to the row, given the task as it was claimed. */
  function OutcomeRow(row: TaskRow, task: TaskRow, next: Option<string>, outcome: StepOutcome, now: Time, draw: nat)
    : Result<TaskRow, WorkerError>
    requires task.attempts >= 0
  {
    match outcome
    case Done(patch) => Ok(AdvancedRow(row, next, patch, now))
    case Retry(error) =>
      if now - task.createdAt >= MAX_TASK_AGE_MS then FailedRow(row, task, error, now)
      else Ok(RetryRow(row, now + BackoffDelay(SaturatingInc(task.attempts), draw), error, now))
    case Terminal(error) => FailedRow(row, task, error, now)
  }

  /** Two steps of the creation need the issuer's id. */
  predicate NeedsIssuer(task: TaskRow) {
    task.taskType == CreateIssuer
    && (CurrentStep(task) == "persist_issuer" || CurrentStep(task) == "provision_status_list")
  }

  /** One execution: dispatch on the step name, then complete, advance, retry or fail. */
  function ExecutedRow(row: TaskRow, task: TaskRow, outcome: StepOutcome, now: Time, draw: nat)
    : Result<TaskRow, WorkerError>
    requires task.attempts >= 0
  {
    match Dispatch(task.taskType, CurrentStep(task))
    case None => Err(Decode)
    case Some(next) =>
      if NeedsIssuer(task) && task.resultIssuer.None? then Err(Decode)
      else if outcome.Done? && next.None? then
        match Finished(task, Completed, None, now)
        case Some(t) => Ok(TerminalRow(row, t))
        case None => Err(DataIntegrity)
      else OutcomeRow(row, task, next, outcome, now, draw)
  }

  predicate NoLaterThan(a: TaskRow, b: TaskRow) {
    if a.nextAttemptAt.None? then b.nextAttemptAt.Some? || a.createdAt <= b.createdAt
    else b.nextAttemptAt.Some?
         && (a.nextAttemptAt.value < b.nextAttemptAt.value
             || (a.nextAttemptAt.value == b.nextAttemptAt.value && a.createdAt <= b.createdAt))
  }

  /** The row a claim takes: runnable, unlocked and before every other such row. */
  ghost predicate FirstInLine(rows: map<TaskId, TaskRow>, locked: set<TaskId>, id: TaskId, now: Time) {
    && id in rows && id !in locked && rows[id].IsRunnable(now)
    && forall t :: t in rows && t !in locked && rows[t].IsRunnable(now) ==> NoLaterThan(rows[id], rows[t])
  }

  class TaskTable {
    var rows: map<TaskId, TaskRow>

    constructor ()
      ensures rows == map[]
    {
      rows := map[];
    }

    /** The first runnable row that no other transaction has locked. */
    method FindNextAcquirable(now: Time, locked: set<TaskId>) returns (r: Option<TaskId>)
      ensures r.None? <==> forall t :: t in rows && t !in locked ==> !rows[t].IsRunnable(now)
      ensures r.Some? ==>
                && r.value in rows && r.value !in locked && rows[r.value].IsRunnable(now)
                && forall t :: t in rows && t !in locked && rows[t].IsRunnable(now) ==> NoLaterThan(rows[r.value], rows[t])
      ensures r.None? <==>
                forall t :: t in rows && t !in locked ==>
                  rows[t].state == Completed || rows[t].state == Failed
                  || (rows[t].nextAttemptAt.Some? && rows[t].nextAttemptAt.value > now)
      ensures r.Some? ==>
                var row := rows[r.value];
                && (row.state == Pending || row.state == InProgress)
                && (row.nextAttemptAt.None? || row.nextAttemptAt.value <= now)
      // Rows never put off first, then the longest due, the older row on a tie.
      ensures r.Some? ==>
                forall t :: t in rows && t !in locked && (rows[t].state == Pending || rows[t].state == InProgress)
                            && (rows[t].nextAttemptAt.None? || rows[t].nextAttemptAt.value <= now) ==>
                  var a, b := rows[r.value], rows[t];
                  && (b.nextAttemptAt.None? ==> a.nextAttemptAt.None?)
                  && (a.nextAttemptAt.Some? && b.nextAttemptAt.Some? ==>
                        a.nextAttemptAt.value <= b.nextAttemptAt.value)
                  && (a.nextAttemptAt == b.nextAttemptAt ==> a.createdAt <= b.createdAt)
    {
      r := None;
      var todo := rows.Keys - locked;
      while todo != {}
        invariant todo <= rows.Keys - locked
        invariant r.Some? ==> r.value in rows && r.value !in locked && rows[r.value].IsRunnable(now)
        invariant forall t :: t in rows && t !in locked && t !in todo && rows[t].IsRunnable(now)
                              ==> r.Some? && NoLaterThan(rows[r.value], rows[t])
        decreases todo
      {
        var t :| t in todo;
        todo := todo - {t};
        if rows[t].IsRunnable(now) && (r.None? || NoLaterThan(rows[t], rows[r.value])) {
          r := Some(t);
        }
      }
    }

    /** Merges the patch key by key into a copy of the stored object, then updates the row. */
    method AdvanceStep(id: TaskId, next: Option<string>, patch: JsonObject, now: Time)
      returns (r: Result<(), WorkerError>)
      modifies this
      ensures r.Ok? <==> id in old(rows)
      ensures r.Ok? ==> rows == old(rows)[id := AdvancedRow(old(rows)[id], next, patch, now)]
      ensures r.Ok? ==>
                var fields := if old(rows)[id].stateData.Object? then old(rows)[id].stateData.fields else map[];
                rows == old(rows)[id := old(rows)[id].(step := next, attempts := 0, nextAttemptAt := None, error := None,
                                                       stateData := Object(fields + patch), updatedAt := now)]
      ensures r.Err? ==> r.error == NotFound && rows == old(rows)
    {
      if id !in rows {
        return Err(NotFound);
      }
      var merged := Fields(rows[id].stateData);
      var todo := patch.Keys;
      while todo != {}
        invariant todo <= patch.Keys && rows == old(rows)
        invariant merged.Keys == Fields(rows[id].stateData).Keys + (patch.Keys - todo)
        invariant forall k :: k in merged ==>
                    merged[k] == if k in patch && k !in todo then patch[k] else Fields(rows[id].stateData)[k]
        decreases todo
      {
        var k :| k in todo;
        merged := merged[k := patch[k]];
        todo := todo - {k};
      }
      assert merged == Fields(rows[id].stateData) + patch;
      rows := rows[id := rows[id].(step := next, attempts := 0, nextAttemptAt := None, error := None,
                                   stateData := Object(merged), updatedAt := now)];
      r := Ok(());
    }

    method ScheduleRetry(id: TaskId, next: Time, error: TaskError, now: Time) returns (r: Result<(), WorkerError>)
      modifies this
      ensures r.Ok? <==> id in old(rows)
      ensures r.Ok? ==> rows == old(rows)[id := RetryRow(old(rows)[id], next, error, now)]
      ensures r.Ok? ==>
                rows == old(rows)[id := old(rows)[id].(nextAttemptAt := Some(next), error := Some(error),
                                                       updatedAt := now)]
      ensures r.Err? ==> r.error == NotFound && rows == old(rows)
    {
      if id !in rows {
        return Err(NotFound);
      }
      rows := rows[id := rows[id].(nextAttemptAt := Some(next), error := Some(error), updatedAt := now)];
      r := Ok(());
    }

    method SetTerminalState(id: TaskId, task: OperationTask) returns (r: Result<(), WorkerError>)
      modifies this
      ensures r.Ok? <==> id in old(rows)
      ensures r.Ok? ==> rows == old(rows)[id := TerminalRow(old(rows)[id], task.row)]
      ensures r.Ok? ==>
                rows == old(rows)[id := old(rows)[id].(
                  state := task.row.state, nextAttemptAt := task.row.nextAttemptAt, error := task.row.error,
                  resultIssuer := task.row.resultIssuer, updatedAt := task.row.updatedAt,
                  completedAt := task.row.completedAt)]
      ensures r.Err? ==> r.error == NotFound && rows == old(rows)
    {
      if id !in rows {
        return Err(NotFound);
      }
      rows := rows[id := TerminalRow(rows[id], task.row)];
      r := Ok(());
    }

    method SetAcquired(id: TaskId, task: OperationTask) returns (r: Result<(), WorkerError>)
      modifies this
      ensures r.Ok? <==> id in old(rows)
      ensures r.Ok? ==> rows == old(rows)[id := AcquiredRow(old(rows)[id], task.row)]
      ensures r.Err? ==> r.error == NotFound && rows == old(rows)
    {
      if id !in rows {
        return Err(NotFound);
      }
      rows := rows[id := rows[id].(state := task.row.state, attempts := AsI32(task.row.attempts),
                                   updatedAt := task.row.updatedAt)];
      r := Ok(());
    }

    /** One transaction: find, try_acquire, store. A row whose counter reads as negative
        cannot be decoded; it stays where it is and stops the claim. */
    method AcquireNext(now: Time, locked: set<TaskId>) returns (r: Result<Option<(TaskId, OperationTask)>, WorkerError>)
      modifies this
      ensures r == Ok(None) <==> forall t :: t in old(rows) && t !in locked ==> !old(rows)[t].IsRunnable(now)
      ensures r.Ok? && r.value.Some? ==>
                var (id, task) := r.value.value;
                && fresh(task) && FirstInLine(old(rows), locked, id, now) && old(rows)[id].attempts >= 0
                && Acquired(old(rows)[id], now) == Some(task.row)
                && rows == old(rows)[id := AcquiredRow(old(rows)[id], task.row)]
      ensures r.Ok? && r.value.None? ==> rows == old(rows)
      ensures r.Err? ==> r.error == DataIntegrity && rows == old(rows)
                         && exists t :: FirstInLine(old(rows), locked, t, now) && old(rows)[t].attempts < 0
      // In the columns' own terms.
      ensures r == Ok(None) <==>
                forall t :: t in old(rows) && t !in locked ==>
                  old(rows)[t].state == Completed || old(rows)[t].state == Failed
                  || (old(rows)[t].nextAttemptAt.Some? && old(rows)[t].nextAttemptAt.value > now)
      ensures r.Ok? && r.value.Some? ==>
                var (id, task) := r.value.value;
                var row := old(rows)[id];
                && id !in locked && (row.state == Pending || row.state == InProgress)
                && (row.nextAttemptAt.None? || row.nextAttemptAt.value <= now)
                && task.row == row.(state := InProgress, updatedAt := now, attempts := task.row.attempts)
                && task.row.attempts == (if row.state == Pending then row.attempts
                                         else if row.attempts < 0xFFFF_FFFF then row.attempts + 1 else 0xFFFF_FFFF)
                && rows == old(rows)[id := row.(state := InProgress, updatedAt := now,
                                                attempts := if task.row.attempts < 0x8000_0000 then task.row.attempts
                                                            else task.row.attempts - 0x1_0000_0000)]
      ensures r.Ok? && r.value.Some? ==>
                var (id, _) := r.value.value;
                forall t :: t in old(rows) && t !in locked
                            && (old(rows)[t].state == Pending || old(rows)[t].state == InProgress)
                            && (old(rows)[t].nextAttemptAt.None? || old(rows)[t].nextAttemptAt.value <= now) ==>
                  var a, b := old(rows)[id], old(rows)[t];
                  && (b.nextAttemptAt.None? ==> a.nextAttemptAt.None?)
                  && (a.nextAttemptAt.Some? && b.nextAttemptAt.Some? ==>
                        a.nextAttemptAt.value <= b.nextAttemptAt.value)
                  && (a.nextAttemptAt == b.nextAttemptAt ==> a.createdAt <= b.createdAt)
    {
      var found := FindNextAcquirable(now, locked);
      if found.None? {
        return Ok(None);
      }
      var id := found.value;
      assert FirstInLine(rows, locked, id, now);
      if rows[id].attempts < 0 {
        return Err(DataIntegrity);
      }
      var task := new OperationTask(rows[id]);
      var ok := task.TryAcquire(now);
      assert ok;
      var stored := SetAcquired(id, task);
      r := Ok(Some((id, task)));
    }

    method Apply(id: TaskId, task: OperationTask, next: Option<string>, outcome: StepOutcome, now: Time, draw: nat)
      returns (r: Result<(), WorkerError>)
      requires task.row.attempts >= 0
      modifies this, task
      ensures id !in old(rows) ==> r.Err? && rows == old(rows)
      ensures id in old(rows) ==>
                var o := OutcomeRow(old(rows)[id], old(task.row), next, outcome, now, draw);
                && (r.Ok? <==> o.Ok?)
                && rows == (if o.Ok? then old(rows)[id := o.value] else old(rows))
      // In the columns' own terms: advance, put off, or fail.
      ensures id in old(rows) && outcome.Done? ==>
                var fields := if old(rows)[id].stateData.Object? then old(rows)[id].stateData.fields else map[];
                r.Ok? && rows == old(rows)[id := old(rows)[id].(
                  step := next, attempts := 0, nextAttemptAt := None, error := None,
                  stateData := Object(fields + outcome.patch), updatedAt := now)]
      ensures id in old(rows) && outcome.Retry? && now - old(task.row).createdAt < 86_400_000 ==>
                && r.Ok? && rows[id].nextAttemptAt.Some?
                && rows == old(rows)[id := old(rows)[id].(nextAttemptAt := rows[id].nextAttemptAt,
                                                          error := Some(outcome.error), updatedAt := now)]
                && (old(task.row).attempts < 0xFFFF_FFFF ==>
                      var wait, ceiling := rows[id].nextAttemptAt.value - now, 60_000 * Pow2(old(task.row).attempts + 1);
                      && 0 <= wait <= ceiling && wait <= 3_600_000
                      && (draw <= ceiling && draw <= 3_600_000 ==> wait == draw))
      ensures id in old(rows) && (outcome.Terminal?
                                  || (outcome.Retry? && now - old(task.row).createdAt >= 86_400_000)) ==>
                if old(task.row).state == InProgress then
                  r.Ok? && rows == old(rows)[id := old(rows)[id].(
                    state := Failed, nextAttemptAt := None, error := Some(outcome.error),
                    resultIssuer := old(task.row).resultIssuer, updatedAt := now, completedAt := Some(now))]
                else r == Err(DataIntegrity)
    {
      DelayRange(SaturatingInc(task.row.attempts), draw);
      hide BackoffDelay, Pow2;
      match outcome
      case Done(patch) =>
        r := AdvanceStep(id, next, patch, now);
      case Retry(error) =>
        if now - task.row.createdAt >= MAX_TASK_AGE_MS {
          r := FailThroughAggregate(id, task, error, now);
        } else {
          var delay := BackoffDelay(SaturatingInc(task.row.attempts), draw);
          r := ScheduleRetry(id, now + delay, error, now);
        }
      case Terminal(error) =>
        r := FailThroughAggregate(id, task, error, now);
    }

    method FailThroughAggregate(id: TaskId, task: OperationTask, error: TaskError, now: Time)
      returns (r: Result<(), WorkerError>)
      modifies this, task
      ensures old(task.row).state != InProgress ==> r == Err(DataIntegrity)
      ensures old(task.row).state == InProgress && id !in old(rows) ==> r == Err(NotFound)
      ensures id !in old(rows) ==> rows == old(rows)
      ensures id in old(rows) ==>
                var o := FailedRow(old(rows)[id], old(task.row), error, now);
                && (r.Ok? <==> o.Ok?)
                && rows == (if o.Ok? then old(rows)[id := o.value] else old(rows))
      ensures id in old(rows) && old(task.row).state == InProgress ==>
                r.Ok? && rows == old(rows)[id := old(rows)[id].(
                  state := Failed, nextAttemptAt := None, error := Some(error),
                  resultIssuer := old(task.row).resultIssuer, updatedAt := now, completedAt := Some(now))]
    {
      var ok := task.TryFail(error, now);
      if !ok {
        return Err(DataIntegrity);
      }
      r := SetTerminalState(id, task);
    }

    /** Dispatches on the step; the final step's Done completes the task. */
    method Execute(id: TaskId, task: OperationTask, outcome: StepOutcome, now: Time, draw: nat)
      returns (r: Result<(), WorkerError>)
      requires task.row.attempts >= 0
      modifies this, task
      ensures id !in old(rows) ==> r.Err? && rows == old(rows)
      ensures id in old(rows) ==>
                var o := ExecutedRow(old(rows)[id], old(task.row), outcome, now, draw);
                && (r.Ok? <==> o.Ok?)
                && rows == (if o.Ok? then old(rows)[id := o.value] else old(rows))
      // A final step's Done completes the task and merges nothing.
      ensures id in old(rows) && outcome.Done? && old(task.row).state == InProgress
              && old(task.row).step.Some? && old(task.row).resultIssuer.Some?
              && (match old(task.row).taskType
                  case CreateIssuer => old(task.row).step.value == "provision_status_list"
                  case DeactivateIssuer => old(task.row).step.value == "mark_deactivated"
                  case RotateKeys => old(task.row).step.value == "swap_keys") ==>
                r.Ok? && rows == old(rows)[id := old(rows)[id].(
                  state := Completed, nextAttemptAt := None, error := None,
                  resultIssuer := old(task.row).resultIssuer, updatedAt := now, completedAt := Some(now))]
      ensures old(task.row).taskType == CreateIssuer && old(task.row).resultIssuer.None? && old(task.row).step.Some?
              && (old(task.row).step.value == "persist_issuer" || old(task.row).step.value == "provision_status_list") ==>
                r == Err(Decode)
    {
      hide BackoffDelay, Pow2;
      var known := Dispatch(task.row.taskType, CurrentStep(task.row));
      if known.None? {
        return Err(Decode);
      }
      if NeedsIssuer(task.row) && task.row.resultIssuer.None? {
        return Err(Decode);
      }
      if outcome.Done? && known.value.None? {
        var ok := task.TryComplete(now);
        if !ok {
          return Err(DataIntegrity);
        }
        r := SetTerminalState(id, task);
      } else {
        r := Apply(id, task, known.value, outcome, now, draw);
      }
    }
  }
}
