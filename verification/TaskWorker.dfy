/** The single operation-task worker as a state machine: tasks are submitted,
    claimed, executed with an arbitrary outcome and recorded, and the worker may
    crash or fail at any point in between. */
module TaskWorker {
  import opened Wrappers
  import opened Backoff
  import opened OperationTasks

  /** A step that ran to Done, with the patch it returned. */
  datatype StepRecord = StepRecord(name: string, patch: JsonObject)

  /** A stored task, with the steps done so far and the claims of the current step. */
  datatype Entry = Entry(row: TaskRow, done: seq<StepRecord>, claims: nat)

  /** The task being executed, as the worker holds it in memory. */
  datatype Running = Running(id: TaskId, task: TaskRow)

  datatype Sys = Sys(tasks: map<TaskId, Entry>, running: Option<Running>)

  datatype Step =
    | Submit(id: TaskId, taskType: TaskType, issuer: string, now: Time)
    | Claim(id: TaskId, now: Time)
    | Execute(outcome: StepOutcome, now: Time, draw: nat)
    // A crash, or an execution that ends in a worker error: the row stays as it is.
    | Abandon

  const Empty := Sys(map[], None)

  /** A row whose attempt counter reads as negative cannot be decoded and stops the claim. */
  predicate Enabled(s: Sys, step: Step) {
    match step
    case Submit(id, _, _, _) => id !in s.tasks
    case Claim(id, now) =>
      s.running.None? && id in s.tasks && s.tasks[id].row.IsRunnable(now) && s.tasks[id].row.attempts >= 0
      && forall t :: t in s.tasks && s.tasks[t].row.IsRunnable(now) ==> NoLaterThan(s.tasks[id].row, s.tasks[t].row)
    case Execute(_, _, _) => s.running.Some? && s.running.value.id in s.tasks && s.running.value.task.attempts >= 0
    case Abandon => s.running.Some?
  }

  function ClaimEntry(e: Entry, now: Time): (Entry, Option<TaskRow>) {
    match Acquired(e.row, now)
    case Some(t) =>
      (e.(row := AcquiredRow(e.row, t), claims := e.claims + 1), Some(t))
    case None => (e, None)
  }

  function ExecuteEntry(e: Entry, task: TaskRow, outcome: StepOutcome, now: Time, draw: nat): Entry
    requires task.attempts >= 0
  {
    match ExecutedRow(e.row, task, outcome, now, draw)
    case Err(_) => e
    case Ok(row) =>
      if outcome.Done? then Entry(row, e.done + [StepRecord(CurrentStep(task), outcome.patch)], 0)
      else e.(row := row)
  }

  function Apply(s: Sys, step: Step): Sys
    requires Enabled(s, step)
  {
    match step
    case Submit(id, taskType, issuer, now) => s.(tasks := s.tasks[id := Entry(NewTask(taskType, issuer, now), [], 0)])
    case Claim(id, now) =>
      var c := ClaimEntry(s.tasks[id], now);
      Sys(s.tasks[id := c.0], if c.1.Some? then Some(Running(id, c.1.value)) else None)
    case Execute(outcome, now, draw) =>
      var r := s.running.value;
      Sys(s.tasks[r.id := ExecuteEntry(s.tasks[r.id], r.task, outcome, now, draw)], None)
    case Abandon => s.(running := None)
  }

  ghost predicate Next(s: Sys, step: Step, s': Sys) {
    Enabled(s, step) && s' == Apply(s, step)
  }

  ghost predicate Run(states: seq<Sys>, steps: seq<Step>) {
    && |states| == |steps| + 1
    && states[0] == Empty
    && forall k :: 0 <= k < |steps| ==> Next(states[k], steps[k], states[k + 1])
  }

  // ---- What a task keeps ----

  /** The patches laid over each other in order: a later value replaces an earlier one. */
  function Merged(records: seq<StepRecord>): JsonObject {
    if records == [] then map[] else Merged(records[..|records| - 1]) + records[|records| - 1].patch
  }

  /** The records of the steps before the final one. */
  function NonFinal(e: Entry): seq<StepRecord> {
    if |e.done| < |Chain(e.row.taskType)| then e.done
    else e.done[..|Chain(e.row.taskType)| - 1]
  }

  ghost predicate Progress(e: Entry) {
    var chain := Chain(e.row.taskType);
    && |e.done| <= |chain|
    && (forall k :: 0 <= k < |e.done| ==> e.done[k].name == chain[k])
    && (e.row.state == Completed <==> |e.done| == |chain|)
    && (e.row.state == Pending ==> |e.done| == 0)
    && (!e.row.IsTerminal() ==> e.row.step == if |e.done| == 0 then None else Some(chain[|e.done|]))
  }

  ghost predicate Data(e: Entry) {
    e.row.stateData == Object(Merged(NonFinal(e))) && e.row.resultIssuer.Some?
  }

  ghost predicate Times(e: Entry) {
    && (e.row.nextAttemptAt.Some? ==>
          !e.row.IsTerminal() && e.row.nextAttemptAt.value < e.row.createdAt + MAX_TASK_AGE_MS + HOUR_MS)
    && (e.row.completedAt.Some? <==> e.row.IsTerminal())
  }

  /** What the attempt counter should say: the first step's first claim is not counted. */
  function ExpectedAttempts(e: Entry): int {
    if |e.done| == 0 && e.claims > 0 then e.claims - 1 else e.claims
  }

  ghost predicate Attempts(e: Entry) {
    && (e.row.state == Pending ==> e.claims == 0)
    && (!e.row.IsTerminal() ==>
          0 <= ExpectedAttempts(e) <= I32_LIMIT && e.row.attempts == AsI32(ExpectedAttempts(e)))
    && (e.row.state == InProgress && |e.done| == 0 ==> e.claims > 0)
  }

  ghost predicate EntryOk(e: Entry) {
    Progress(e) && Data(e) && Times(e) && Attempts(e)
  }

  /** The worker's copy is the stored row, but for a counter that has just wrapped. */
  ghost predicate Loaded(e: Entry, task: TaskRow) {
    && task.attempts >= 0 && task == e.row.(attempts := task.attempts) && e.row.attempts == AsI32(task.attempts)
    && task.attempts == ExpectedAttempts(e)
    && task.state == InProgress
  }

  ghost predicate Inv(s: Sys) {
    && (forall t :: t in s.tasks ==> EntryOk(s.tasks[t]))
    && (s.running.Some? ==> s.running.value.id in s.tasks && Loaded(s.tasks[s.running.value.id], s.running.value.task))
  }

  lemma SubmitOk(taskType: TaskType, issuer: string, now: Time)
    ensures EntryOk(Entry(NewTask(taskType, issuer, now), [], 0))
  {
  }

  /** try_acquire never refuses a runnable row. */
  lemma ClaimOk(e: Entry, now: Time)
    requires EntryOk(e) && e.row.IsRunnable(now) && e.row.attempts >= 0
    ensures var c := ClaimEntry(e, now);
            EntryOk(c.0) && c.1.Some? && Loaded(c.0, c.1.value) && c.0.done == e.done
  {
  }

  /** A claimed task is at a step its worker knows, and at the next step of its chain. */
  lemma DispatchKnows(e: Entry, task: TaskRow)
    requires Progress(e) && Loaded(e, task)
    ensures |e.done| < |Chain(e.row.taskType)| && CurrentStep(task) == Chain(e.row.taskType)[|e.done|]
    ensures Dispatch(task.taskType, CurrentStep(task)) ==
            Some(if |e.done| + 1 < |Chain(e.row.taskType)| then Some(Chain(e.row.taskType)[|e.done| + 1]) else None)
  {
  }

  /** The worker's guards all hold: no execution of a claimed task is refused by the
      aggregate or meets a step name it does not know. */
  lemma ExecutionIsNeverRefused(e: Entry, task: TaskRow, outcome: StepOutcome, now: Time, draw: nat)
    requires Progress(e) && Data(e) && Loaded(e, task)
    ensures ExecutedRow(e.row, task, outcome, now, draw).Ok?
  {
  }

  lemma ExecuteDone(e: Entry, task: TaskRow, outcome: StepOutcome, now: Time, draw: nat)
    requires EntryOk(e) && Loaded(e, task) && outcome.Done?
    ensures EntryOk(ExecuteEntry(e, task, outcome, now, draw))
    ensures |ExecuteEntry(e, task, outcome, now, draw).done| == |e.done| + 1
  {
    hide Chain, Dispatch, BackoffDelay, Merged;
    DispatchKnows(e, task);
    var e' := ExecuteEntry(e, task, outcome, now, draw);
    var record := StepRecord(CurrentStep(task), outcome.patch);
    assert e'.done == e.done + [record];
    MergedThen(e.done, record);
    assert (e.done + [record])[..|e.done|] == e.done;
  }

  lemma MergedThen(records: seq<StepRecord>, record: StepRecord)
    ensures Merged(records + [record]) == Merged(records) + record.patch
  {
  }

  lemma ExecuteNotDone(e: Entry, task: TaskRow, outcome: StepOutcome, now: Time, draw: nat)
    requires EntryOk(e) && Loaded(e, task) && !outcome.Done?
    ensures EntryOk(ExecuteEntry(e, task, outcome, now, draw))
    ensures ExecuteEntry(e, task, outcome, now, draw).done == e.done
    ensures now - e.row.createdAt >= MAX_TASK_AGE_MS || outcome.Terminal? ==>
              ExecuteEntry(e, task, outcome, now, draw).row.state == Failed
  {
    hide Chain, Dispatch, BackoffDelay, Merged;
    DispatchKnows(e, task);
    var e' := ExecuteEntry(e, task, outcome, now, draw);
    assert NonFinal(e') == NonFinal(e);
    DelayRange(SaturatingInc(task.attempts), draw);
  }

  // ---- Every reachable state ----

  lemma InvKept(s: Sys, step: Step, s': Sys)
    requires Inv(s) && Next(s, step, s')
    ensures Inv(s')
  {
    hide EntryOk, Loaded, ExecuteEntry, ClaimEntry;
    match step
    case Submit(_, taskType, issuer, now) => SubmitOk(taskType, issuer, now);
    case Claim(id, now) => ClaimOk(s.tasks[id], now);
    case Execute(outcome, now, draw) =>
      var r := s.running.value;
      if outcome.Done? {
        ExecuteDone(s.tasks[r.id], r.task, outcome, now, draw);
      } else {
        ExecuteNotDone(s.tasks[r.id], r.task, outcome, now, draw);
      }
    case Abandon =>
  }

  lemma {:induction false} InvHolds(states: seq<Sys>, steps: seq<Step>, n: nat)
    requires Run(states, steps) && n <= |steps|
    ensures Inv(states[n])
  {
    hide EntryOk, Loaded, Next;
    if n > 0 {
      InvHolds(states, steps, n - 1);
      assert Next(states[n - 1], steps[n - 1], states[n - 1 + 1]);
      InvKept(states[n - 1], steps[n - 1], states[n]);
    }
  }
}
