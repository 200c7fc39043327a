/** What every run of the single worker guarantees, across crashes, worker errors and
    arbitrary step outcomes. */
module TaskTheorems {
  import opened Wrappers
  import opened Backoff
  import opened OperationTasks
  import opened TaskWorker

  function Names(records: seq<StepRecord>): (r: seq<string>)
    ensures |r| == |records| && forall k :: 0 <= k < |records| ==> r[k] == records[k].name
  {
    seq(|records|, k requires 0 <= k < |records| => records[k].name)
  }

  /** The steps done are a prefix of the chain, all of it exactly when the task is
      Completed; a task still open stands at the next step. */
  lemma StepsFollowTheChain(states: seq<Sys>, steps: seq<Step>, n: nat, t: TaskId)
    requires Run(states, steps) && n <= |steps| && t in states[n].tasks
    ensures var e := states[n].tasks[t];
            var chain := Chain(e.row.taskType);
            && Names(e.done) <= chain
            && (e.row.state == Completed <==> Names(e.done) == chain)
            && (!e.row.IsTerminal() ==> |e.done| < |chain| && CurrentStep(e.row) == chain[|e.done|])
  {
    InvHolds(states, steps, n);
    var e := states[n].tasks[t];
    assert EntryOk(e);
    hide Chain, Data, Times, Attempts;
    DispatchFollowsTheChain(e.row.taskType, 0);
  }

  /** Neither the claim nor the recording of an outcome is ever turned away by the
      aggregate's guards, and the step name is always known. */
  lemma GuardsNeverFail(states: seq<Sys>, steps: seq<Step>, n: nat)
    requires Run(states, steps) && n < |steps|
    ensures steps[n].Claim? ==> steps[n].id in states[n].tasks
                                && Acquired(states[n].tasks[steps[n].id].row, steps[n].now).Some?
    ensures steps[n].Execute? ==>
              && states[n].running.Some? && states[n].running.value.id in states[n].tasks
              && states[n].running.value.task.attempts >= 0
              && ExecutedRow(states[n].tasks[states[n].running.value.id].row, states[n].running.value.task,
                             steps[n].outcome, steps[n].now, steps[n].draw).Ok?
  {
    InvHolds(states, steps, n);
    assert Next(states[n], steps[n], states[n + 1]);
    hide Loaded, ExecutedRow, Apply;
    if steps[n].Execute? {
      var r := states[n].running.value;
      assert EntryOk(states[n].tasks[r.id]);
      ExecutionIsNeverRefused(states[n].tasks[r.id], r.task, steps[n].outcome, steps[n].now, steps[n].draw);
    }
  }

  // ---- One task over time ----

  ghost predicate Forward(a: Entry, b: Entry) {
    && a.row.taskType == b.row.taskType && a.row.createdAt == b.row.createdAt
    && a.done <= b.done
    && (a.row.IsTerminal() ==> b == a)
  }

  lemma ForwardNext(s: Sys, step: Step, s': Sys, t: TaskId)
    requires Inv(s) && Next(s, step, s') && t in s.tasks
    ensures t in s'.tasks && Forward(s.tasks[t], s'.tasks[t])
  {
    hide EntryOk, Dispatch, BackoffDelay;
  }

  /** Completed and Failed are final, and done steps are never forgotten. */
  lemma {:induction false} TasksOnlyMoveForward(states: seq<Sys>, steps: seq<Step>, i: nat, j: nat, t: TaskId)
    requires Run(states, steps) && i <= j <= |steps| && t in states[i].tasks
    ensures t in states[j].tasks && Forward(states[i].tasks[t], states[j].tasks[t])
    ensures var a, b := states[i].tasks[t], states[j].tasks[t];
            && a.row.taskType == b.row.taskType && a.row.createdAt == b.row.createdAt && a.done <= b.done
            && (a.row.state == Completed || a.row.state == Failed ==> b == a)
    decreases j
  {
    hide Inv, Next;
    if i < j {
      TasksOnlyMoveForward(states, steps, i, j - 1, t);
      InvHolds(states, steps, j - 1);
      assert Next(states[j - 1], steps[j - 1], states[j - 1 + 1]);
      ForwardNext(states[j - 1], steps[j - 1], states[j], t);
    }
  }

  // ---- State data ----

  /** Whether some record's patch has the key, and the last such value. */
  ghost predicate LastValue(records: seq<StepRecord>, key: string, value: Json) {
    exists k :: 0 <= k < |records| && key in records[k].patch && records[k].patch[key] == value
                && forall m :: k < m < |records| ==> key !in records[m].patch
  }

  lemma LastValueThen(records: seq<StepRecord>, record: StepRecord, key: string, value: Json)
    requires if key in record.patch then record.patch[key] == value else LastValue(records, key, value)
    ensures LastValue(records + [record], key, value)
  {
    var all := records + [record];
    if key in record.patch {
      assert all[|records|] == record;
    } else {
      var k :| 0 <= k < |records| && key in records[k].patch && records[k].patch[key] == value
               && forall m :: k < m < |records| ==> key !in records[m].patch;
      assert all[k] == records[k];
      assert forall m :: k < m < |all| ==> all[m] == if m < |records| then records[m] else record;
    }
  }

  /** Laying the patches over each other keeps the value of the last patch with the key. */
  lemma {:induction false} LastWriterWins(records: seq<StepRecord>, key: string)
    ensures key in Merged(records) <==> exists k :: 0 <= k < |records| && key in records[k].patch
    ensures key in Merged(records) ==> LastValue(records, key, Merged(records)[key])
  {
    hide LastValue;
    if |records| > 0 {
      var rest, last := records[..|records| - 1], records[|records| - 1];
      assert records == rest + [last];
      LastWriterWins(rest, key);
      if key in Merged(records) {
        LastValueThen(rest, last, key, Merged(records)[key]);
      }
    }
  }

  /** A task's stored data hold, for each key, the value its last finished step but
      the final one wrote, and no other key. */
  lemma StateDataIsTheMergedPatches(states: seq<Sys>, steps: seq<Step>, n: nat, t: TaskId, key: string)
    requires Run(states, steps) && n <= |steps| && t in states[n].tasks
    ensures var e := states[n].tasks[t];
            var records := NonFinal(e);
            && e.row.stateData.Object? && records <= e.done && |records| == (if e.row.state == Completed then |e.done| - 1 else |e.done|)
            && (key in Fields(e.row.stateData) <==> exists k :: 0 <= k < |records| && key in records[k].patch)
            && (key in Fields(e.row.stateData) ==> LastValue(records, key, Fields(e.row.stateData)[key]))
  {
    InvHolds(states, steps, n);
    var e := states[n].tasks[t];
    assert EntryOk(e);
    hide Chain, Times, Attempts, Merged, LastValue;
    LastWriterWins(NonFinal(e), key);
  }

  // ---- Times ----

  /** No open task is ever put off to 25 hours after its creation or later; a
      finished one has no next attempt. */
  lemma NextAttemptWithin25Hours(states: seq<Sys>, steps: seq<Step>, n: nat, t: TaskId)
    requires Run(states, steps) && n <= |steps| && t in states[n].tasks
    ensures var row := states[n].tasks[t].row;
            && (row.nextAttemptAt.Some? ==>
                  (row.state == Pending || row.state == InProgress)
                  && row.nextAttemptAt.value < row.createdAt + 90_000_000)
            && (row.completedAt.Some? <==> row.state == Completed || row.state == Failed)
  {
    InvHolds(states, steps, n);
    assert EntryOk(states[n].tasks[t]);
    hide Progress, Data, Attempts;
  }

  /** The step records an outcome of `t`. */
  predicate RecordsOutcomeOf(s: Sys, step: Step, t: TaskId) {
    step.Execute? && s.running.Some? && s.running.value.id == t
  }

  lemma RetryTimeStays(s: Sys, step: Step, s': Sys, t: TaskId)
    requires Next(s, step, s') && t in s.tasks && !RecordsOutcomeOf(s, step, t)
    ensures t in s'.tasks && s'.tasks[t].row.nextAttemptAt == s.tasks[t].row.nextAttemptAt
  {
    hide ExecutedRow;
  }

  lemma {:induction false} RetryTimeHeldBetween(states: seq<Sys>, steps: seq<Step>, i: nat, j: nat, t: TaskId)
    requires Run(states, steps) && i <= j <= |steps| && t in states[i].tasks
    requires forall k :: i <= k < j ==> !RecordsOutcomeOf(states[k], steps[k], t)
    ensures t in states[j].tasks && states[j].tasks[t].row.nextAttemptAt == states[i].tasks[t].row.nextAttemptAt
    decreases j
  {
    hide Next, RecordsOutcomeOf;
    if i < j {
      RetryTimeHeldBetween(states, steps, i, j - 1, t);
      assert Next(states[j - 1], steps[j - 1], states[j - 1 + 1]);
      RetryTimeStays(states[j - 1], steps[j - 1], states[j], t);
    }
  }

  /** A task put off by a retry is not claimed before its time: until another outcome
      of it is recorded, every claim comes at the stored time or later. Crashes and
      other tasks make no difference. */
  lemma RetriesAreWaitedFor(states: seq<Sys>, steps: seq<Step>, i: nat, j: nat, t: TaskId, next: Time)
    requires Run(states, steps) && i < j < |steps|
    requires steps[i].Execute? && steps[i].outcome.Retry? && states[i].running.Some? && states[i].running.value.id == t
    requires t in states[i + 1].tasks && states[i + 1].tasks[t].row.nextAttemptAt == Some(next)
    requires forall k :: i < k < j ==> !(steps[k].Execute? && states[k].running.Some? && states[k].running.value.id == t)
    requires steps[j].Claim? && steps[j].id == t
    ensures steps[j].now >= next
  {
    RetryTimeHeldBetween(states, steps, i + 1, j, t);
    assert Next(states[j], steps[j], states[j + 1]);
    hide Apply;
  }

  /** A claim takes an open row that is not put off beyond its time. */
  lemma ClaimsAreDue(states: seq<Sys>, steps: seq<Step>, j: nat)
    requires Run(states, steps) && j < |steps| && steps[j].Claim?
    ensures steps[j].id in states[j].tasks && states[j].running.None?
    ensures var row := states[j].tasks[steps[j].id].row;
            && (row.state == Pending || row.state == InProgress)
            && (row.nextAttemptAt.None? || row.nextAttemptAt.value <= steps[j].now)
  {
    assert Next(states[j], steps[j], states[j + 1]);
    hide Apply;
  }

  function Remaining(e: Entry): int {
    if e.row.IsTerminal() then 0 else |Chain(e.row.taskType)| - |e.done|
  }

  /** The step records an outcome of `t` when `t` is a day old. */
  predicate LateExecution(s: Sys, step: Step, t: TaskId) {
    step.Execute? && s.running.Some? && s.running.value.id == t && t in s.tasks
    && step.now - s.tasks[t].row.createdAt >= 86_400_000
  }

  lemma RemainingNext(s: Sys, step: Step, s': Sys, t: TaskId)
    requires Inv(s) && Next(s, step, s') && t in s.tasks
    ensures t in s'.tasks && 0 <= Remaining(s'.tasks[t]) <= Remaining(s.tasks[t])
    ensures LateExecution(s, step, t) ==> Remaining(s'.tasks[t]) < Remaining(s.tasks[t])
  {
    InvKept(s, step, s');
    ForwardNext(s, step, s', t);
    assert EntryOk(s.tasks[t]) && EntryOk(s'.tasks[t]);
    hide Chain, Data, Times, Attempts, ExecuteEntry, Loaded, Dispatch;
    if LateExecution(s, step, t) {
      var r := s.running.value;
      if step.outcome.Done? {
        ExecuteDone(s.tasks[t], r.task, step.outcome, step.now, step.draw);
      } else {
        ExecuteNotDone(s.tasks[t], r.task, step.outcome, step.now, step.draw);
      }
      LoadedIsOpen(s.tasks[t], r.task);
    }
  }

  lemma LoadedIsOpen(e: Entry, task: TaskRow)
    requires Loaded(e, task)
    ensures !e.row.IsTerminal()
  {
  }

  function LateExecutions(states: seq<Sys>, steps: seq<Step>, i: nat, j: nat, t: TaskId): nat
    requires i <= j <= |steps| && |states| == |steps| + 1
    decreases j
  {
    if i == j then 0
    else LateExecutions(states, steps, i, j - 1, t) + if LateExecution(states[j - 1], steps[j - 1], t) then 1 else 0
  }

  lemma {:induction false} LateExecutionsUseUpTheChain(states: seq<Sys>, steps: seq<Step>, i: nat, j: nat, t: TaskId)
    requires Run(states, steps) && i <= j <= |steps| && t in states[i].tasks
    ensures t in states[j].tasks && 0 <= Remaining(states[j].tasks[t])
    ensures LateExecutions(states, steps, i, j, t) + Remaining(states[j].tasks[t]) <= Remaining(states[i].tasks[t])
    decreases j
  {
    hide Inv, Next, Remaining, LateExecution;
    InvHolds(states, steps, i);
    RemainingNonNegative(states[i], t);
    if i < j {
      LateExecutionsUseUpTheChain(states, steps, i, j - 1, t);
      InvHolds(states, steps, j - 1);
      assert Next(states[j - 1], steps[j - 1], states[j - 1 + 1]);
      RemainingNext(states[j - 1], steps[j - 1], states[j], t);
    }
  }

  lemma RemainingNonNegative(s: Sys, t: TaskId)
    requires Inv(s) && t in s.tasks
    ensures 0 <= Remaining(s.tasks[t]) <= |Chain(s.tasks[t].row.taskType)|
  {
  }

  /** A day-old task has at most as many executions left as its chain has steps, and
      after each of them it is a step further or finished. */
  lemma DayOldTasksEndSoon(states: seq<Sys>, steps: seq<Step>, i: nat, j: nat, t: TaskId)
    requires Run(states, steps) && i <= j <= |steps| && t in states[i].tasks
    ensures LateExecutions(states, steps, i, j, t) <=
            match states[i].tasks[t].row.taskType
            case CreateIssuer => 7
            case DeactivateIssuer => 3
            case RotateKeys => 4
  {
    LateExecutionsUseUpTheChain(states, steps, i, j, t);
    InvHolds(states, steps, i);
    RemainingNonNegative(states[i], t);
  }

  // ---- Attempts ----

  /** On its first step a task claimed k times shows k - 1 attempts, on every later
      step k, until the stored counter leaves the range of a signed 32-bit column;
      from then on the row cannot be claimed at all. */
  lemma AttemptsCountClaims(states: seq<Sys>, steps: seq<Step>, n: nat, t: TaskId)
    requires Run(states, steps) && n <= |steps| && t in states[n].tasks && !states[n].tasks[t].row.IsTerminal()
    ensures var e := states[n].tasks[t];
            var k := if |e.done| == 0 && e.claims > 0 then e.claims - 1 else e.claims;
            && k <= 0x8000_0000
            && (e.row.attempts == k <==> k < 0x8000_0000)
            && (e.row.attempts < 0 <==> k == 0x8000_0000)
  {
    InvHolds(states, steps, n);
    assert EntryOk(states[n].tasks[t]);
    hide Progress, Data, Times;
  }

  lemma RetryDelay(e: Entry, task: TaskRow, outcome: StepOutcome, now: Time, draw: nat)
    requires EntryOk(e) && Loaded(e, task) && outcome.Retry?
    ensures var row := ExecuteEntry(e, task, outcome, now, draw).row;
            if now - row.createdAt >= 86_400_000 then row.state == Failed
            else
              && row.nextAttemptAt.Some? && 0 <= row.nextAttemptAt.value - now <= 3_600_000
              && row.nextAttemptAt.value - now <= 60_000 * Pow2(task.attempts + 1)
  {
    hide Chain, Dispatch, BackoffDelay, Merged, Times, Pow2;
    AttemptsStayInRange(e, task);
    DispatchKnows(e, task);
    DelayRange(task.attempts + 1, draw);
  }

  /** The delay after a retryable failure lies within one minute times 2^(attempts + 1),
      at most an hour; a task a day old fails instead. */
  lemma RetryDelayIsBounded(states: seq<Sys>, steps: seq<Step>, n: nat)
    requires Run(states, steps) && n < |steps| && steps[n].Execute? && steps[n].outcome.Retry?
    ensures states[n].running.Some? && states[n].running.value.id in states[n + 1].tasks
    ensures var row := states[n + 1].tasks[states[n].running.value.id].row;
            var wait := if row.nextAttemptAt.Some? then row.nextAttemptAt.value - steps[n].now else 0;
            if steps[n].now - row.createdAt >= 86_400_000 then row.state == Failed
            else
              && row.nextAttemptAt.Some? && 0 <= wait <= 3_600_000
              && wait <= 60_000 * Pow2(states[n].running.value.task.attempts + 1)
  {
    InvHolds(states, steps, n);
    assert Next(states[n], steps[n], states[n + 1]);
    var r := states[n].running.value;
    hide EntryOk, Loaded, Pow2, ExecuteEntry;
    RetryDelay(states[n].tasks[r.id], r.task, steps[n].outcome, steps[n].now, steps[n].draw);
  }

  /** The in-memory counter never saturates. */
  lemma AttemptsStayInRange(e: Entry, task: TaskRow)
    requires Attempts(e) && Loaded(e, task)
    ensures 0 <= task.attempts <= I32_LIMIT && SaturatingInc(task.attempts) == task.attempts + 1
  {
  }

  // ---- The table's methods are the worker's steps ----

  function Rows(s: Sys): map<TaskId, TaskRow> {
    map t | t in s.tasks :: s.tasks[t].row
  }

  /** A claim of the model is enabled for the row that AcquireNext finds, when it can
      be decoded, and changes the rows and hands over the task as that method does. */
  lemma ClaimIsAcquireNext(s: Sys, id: TaskId, now: Time)
    ensures Enabled(s, Claim(id, now)) <==>
              s.running.None? && FirstInLine(Rows(s), {}, id, now) && Rows(s)[id].attempts >= 0
    ensures Enabled(s, Claim(id, now)) ==>
              var s', task := Apply(s, Claim(id, now)), Acquired(Rows(s)[id], now);
              && task.Some? && s'.running == Some(Running(id, task.value))
              && Rows(s') == Rows(s)[id := AcquiredRow(Rows(s)[id], task.value)]
  {
    if s.running.None? && FirstInLine(Rows(s), {}, id, now) {
      forall t | t in s.tasks && s.tasks[t].row.IsRunnable(now) ensures NoLaterThan(s.tasks[id].row, s.tasks[t].row) {
        assert Rows(s)[t] == s.tasks[t].row;
      }
    }
  }

  /** Recording an outcome changes the rows as Execute does. */
  lemma ExecutionIsExecute(s: Sys, outcome: StepOutcome, now: Time, draw: nat)
    requires Enabled(s, Step.Execute(outcome, now, draw))
    ensures var r := s.running.value;
            var o := ExecutedRow(Rows(s)[r.id], r.task, outcome, now, draw);
            Rows(Apply(s, Step.Execute(outcome, now, draw))) == if o.Ok? then Rows(s)[r.id := o.value] else Rows(s)
  {
    hide ExecutedRow;
  }

  // ---- A whole task ----

  lemma Extend(states: seq<Sys>, steps: seq<Step>, step: Step) returns (states': seq<Sys>, steps': seq<Step>)
    requires Run(states, steps) && Enabled(states[|steps|], step)
    ensures steps' == steps + [step] && states' == states + [Apply(states[|steps|], step)]
    ensures Run(states', steps')
  {
    hide Apply, Enabled;
    states', steps' := states + [Apply(states[|steps|], step)], steps + [step];
    forall k | 0 <= k < |steps'| ensures Next(states'[k], steps'[k], states'[k + 1]) {
      if k < |steps| {
        assert Next(states[k], steps[k], states[k + 1]);
      }
    }
  }

  /** The only task is claimed and its step done. */
  lemma DoStep(states: seq<Sys>, steps: seq<Step>) returns (states': seq<Sys>, steps': seq<Step>)
    requires Run(states, steps)
    requires var s := states[|steps|];
             && s.running.None? && s.tasks.Keys == {0} && s.tasks[0].row.taskType == DeactivateIssuer
             && !s.tasks[0].row.IsTerminal() && s.tasks[0].row.nextAttemptAt.None?
             && 0 <= s.tasks[0].row.attempts <= 1
             && Dispatch(DeactivateIssuer, CurrentStep(s.tasks[0].row)).Some?
    ensures Run(states', steps')
    ensures var s, s' := states[|steps|], states'[|steps'|];
            && s'.running.None? && s'.tasks.Keys == {0} && s'.tasks[0].row.taskType == DeactivateIssuer
            && s'.tasks[0].row.nextAttemptAt.None?
            && match Dispatch(DeactivateIssuer, CurrentStep(s.tasks[0].row)).value
               case None => s'.tasks[0].row.state == Completed
               case Some(next) => s'.tasks[0].row.state == InProgress && s'.tasks[0].row.attempts == 0
                                  && s'.tasks[0].row.step == Some(next)
  {
    states', steps' := Extend(states, steps, Claim(0, 5));
    states', steps' := Extend(states', steps', Step.Execute(Done(map[]), 5, 0));
  }

  /** A deactivation whose three steps all succeed is Completed. */
  lemma DeactivationRunsThrough() returns (states: seq<Sys>, steps: seq<Step>)
    ensures Run(states, steps)
    ensures 0 in states[|steps|].tasks && states[|steps|].tasks[0].row.state == Completed
  {
    states, steps := Extend([Empty], [], Submit(0, DeactivateIssuer, "issuer", 0));
    states, steps := DoStep(states, steps);
    states, steps := DoStep(states, steps);
    states, steps := DoStep(states, steps);
  }
}
