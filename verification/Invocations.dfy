/** Interleaved invocations of one job. */
module Invocations {
  // `internal/maintenance/model.go`, run by separate processes that share the job's lock and the history; any of them
  // may die at any point.

  import opened Text
  import opened History
  import opened Runner

  datatype Phase =
    | Waiting
    | Refused
    | Admitted
    | Executing
    | Closing(result: Result)
    | Reporting(result: Result)
    | Leaving(result: Result)
    | Done(result: Result)
    | Died

  /** `executed` and `recorded` list invocations in the order they entered the executor and were written. */
  datatype State = State(holder: Option<nat>, phases: seq<Phase>, executed: seq<nat>, recorded: seq<nat>)

  /** An invocation's own inputs; without a run identifier it is refused. */
  datatype Call = Call(options: Options, timeOfDay: TimeOfDay, runId: Option<string>)

  /** What an invocation meets before the lock: a refusal that leaves no trace, a skip, or admission. */
  datatype Gate = Refuses | Skips | Admits

  datatype Step =
    | Begin(i: nat)
    | Acquire(i: nat)
    | AcquireFails(i: nat)
    | Return(i: nat, execution: Execution)
    | Append(i: nat, written: bool, ok: bool)
    | Notify(i: nat, delivered: bool)
    | Leave(i: nat)
    | Die(i: nat)

  predicate Enabled(s: State, step: Step) {
    step.i < |s.phases| && match step
    case Begin(i) => s.phases[i].Waiting?
    case Acquire(i) => s.phases[i].Admitted?
    case AcquireFails(i) => s.phases[i].Admitted?
    case Return(i, _) => s.phases[i].Executing?
    case Append(i, written, ok) => s.phases[i].Closing? && (ok ==> written)
    case Notify(i, _) => s.phases[i].Reporting?
    case Leave(i) => s.phases[i].Leaving?
    case Die(i) => !s.phases[i].Done? && !s.phases[i].Refused? && !s.phases[i].Died?
  }

  function Move(s: State, i: nat, phase: Phase): State
    requires i < |s.phases|
  {
    s.(phases := s.phases[i := phase])
  }

  function Unlock(s: State, i: nat): State {
    if s.holder == Some(i) then s.(holder := None) else s
  }

  function GateOf(job: Job, call: Call): Gate {
    if !ValidOptions(call.options) || job.fingerprint.None? || call.runId.None? then Refuses
    else if Open(job, call.options, call.timeOfDay) then Admits
    else Skips
  }

  function Gates(job: Job, calls: seq<Call>): seq<Gate> {
    seq(|calls|, i requires 0 <= i < |calls| => GateOf(job, calls[i]))
  }

  function Opening(gate: Gate): Phase {
    match gate
    case Refuses => Phase.Refused
    case Skips => Closing(Skipped)
    case Admits => Admitted
  }

  function Next(gates: seq<Gate>, s: State, step: Step): State
    requires Enabled(s, step) && |gates| == |s.phases|
  {
    match step
    case Begin(i) => Move(s, i, Opening(gates[i]))
    case Acquire(i) =>
      if s.holder.Some? then Move(s, i, Closing(Skipped))
      else Move(s, i, Executing).(holder := Some(i), executed := s.executed + [i])
    case AcquireFails(i) => Move(s, i, Closing(Failure))
    case Return(i, execution) => Move(s, i, Closing(Normalized(execution)))
    case Append(i, written, ok) =>
      var result := s.phases[i].result;
      Move(s, i, if ok then Reporting(result) else Leaving(result))
        .(recorded := if written then s.recorded + [i] else s.recorded)
    case Notify(i, _) => Move(s, i, Leaving(s.phases[i].result))
    case Leave(i) => Unlock(Move(s, i, Done(s.phases[i].result)), i)
    case Die(i) => Unlock(Move(s, i, Died), i)
  }

  ghost predicate Initial(s: State) {
    s.holder.None? && s.executed == [] && s.recorded == [] && forall i :: 0 <= i < |s.phases| ==> s.phases[i].Waiting?
  }

  ghost predicate Run(job: Job, calls: seq<Call>, states: seq<State>, steps: seq<Step>) {
    && |states| == |steps| + 1 && Initial(states[0]) && |states[0].phases| == |calls|
    && forall k :: 0 <= k < |steps| ==>
         && |states[k].phases| == |calls| && Enabled(states[k], steps[k])
         && states[k + 1] == Next(Gates(job, calls), states[k], steps[k])
  }

  predicate Settled(phase: Phase) {
    phase.Closing? || phase.Reporting? || phase.Leaving? || phase.Done?
  }

  /** The lock is held by an invocation that is still around, and by any that executes. */
  ghost predicate LockInv(s: State) {
    && (s.holder.Some? ==>
          && s.holder.value < |s.phases|
          && (s.phases[s.holder.value].Executing?
              || (Settled(s.phases[s.holder.value]) && !s.phases[s.holder.value].Done?)))
    && forall i :: 0 <= i < |s.phases| && s.phases[i].Executing? ==> s.holder == Some(i)
  }

  ghost predicate ExecutedInv(gates: seq<Gate>, s: State) {
    && |s.phases| == |gates| && Distinct(s.executed)
    && (forall i :: i in s.executed ==>
          i < |gates| && gates[i].Admits? && !s.phases[i].Waiting? && !s.phases[i].Admitted?)
    && (forall i :: 0 <= i < |s.phases| && s.phases[i].Admitted? ==> gates[i].Admits?)
  }

  ghost predicate RecordedInv(s: State) {
    && Distinct(s.recorded)
    && forall i :: i in s.recorded ==>
         i < |s.phases| && (s.phases[i].Reporting? || s.phases[i].Leaving? || s.phases[i].Done? || s.phases[i].Died?)
  }

  /** A refused invocation never gets anywhere. */
  ghost predicate RefusedInv(gates: seq<Gate>, s: State) {
    && |s.phases| == |gates|
    && forall i :: 0 <= i < |gates| && gates[i].Refuses? ==>
         (s.phases[i].Waiting? || s.phases[i].Refused? || s.phases[i].Died?) && i !in s.recorded
  }

  ghost predicate Inv(gates: seq<Gate>, s: State) {
    LockInv(s) && ExecutedInv(gates, s) && RecordedInv(s) && RefusedInv(gates, s)
  }

  lemma StepKeepsLock(gates: seq<Gate>, s: State, step: Step)
    requires LockInv(s) && |gates| == |s.phases| && Enabled(s, step)
    ensures LockInv(Next(gates, s, step))
  {
  }

  lemma StepKeepsExecuted(gates: seq<Gate>, s: State, step: Step)
    requires ExecutedInv(gates, s) && Enabled(s, step)
    ensures ExecutedInv(gates, Next(gates, s, step))
  {
  }

  lemma StepKeepsRecorded(gates: seq<Gate>, s: State, step: Step)
    requires RecordedInv(s) && |gates| == |s.phases| && Enabled(s, step)
    ensures RecordedInv(Next(gates, s, step))
  {
  }

  lemma StepKeepsRefused(gates: seq<Gate>, s: State, step: Step)
    requires RefusedInv(gates, s) && Enabled(s, step)
    ensures RefusedInv(gates, Next(gates, s, step))
  {
  }

  lemma {:induction false} RunInv(job: Job, calls: seq<Call>, states: seq<State>, steps: seq<Step>, k: nat)
    requires Run(job, calls, states, steps) && k < |states|
    ensures Inv(Gates(job, calls), states[k])
  {
    if k > 0 {
      RunInv(job, calls, states, steps, k - 1);
      StepKeepsLock(Gates(job, calls), states[k - 1], steps[k - 1]);
      StepKeepsExecuted(Gates(job, calls), states[k - 1], steps[k - 1]);
      StepKeepsRecorded(Gates(job, calls), states[k - 1], steps[k - 1]);
      StepKeepsRefused(Gates(job, calls), states[k - 1], steps[k - 1]);
    }
  }

  /**
   * In every interleaving at most one invocation of the job is inside the executor, and it got there past its gates.
   */
  lemma OneExecutesAtATime(job: Job, calls: seq<Call>, states: seq<State>, steps: seq<Step>, k: nat, i: nat, j: nat)
    requires Run(job, calls, states, steps) && k < |states| && i < |calls| && j < |calls|
    requires |states[k].phases| == |calls| && states[k].phases[i].Executing? && states[k].phases[j].Executing?
    ensures i == j
  {
    RunInv(job, calls, states, steps, k);
  }

  /** The time of day lies in the window's arc. */
  predicate InsideWindow(window: Window, timeOfDay: int) {
    var start, end := ParseTime(window.start), ParseTime(window.end);
    start.Some? && end.Some? && (timeOfDay - start.value) % DAY < (end.value - start.value) % DAY
  }

  /**
   * Whatever the interleaving, each invocation executes at most once and is recorded at most once; it executes only
   * with the job enabled, and a scheduled one only inside the job's window, which it cannot ask to ignore.
   */
  lemma ExecutedInsideTheWindow(job: Job, calls: seq<Call>, states: seq<State>, steps: seq<Step>, k: nat)
    requires Run(job, calls, states, steps) && k < |states|
    ensures Distinct(states[k].executed) && Distinct(states[k].recorded)
    ensures forall i :: i in states[k].executed ==> i < |calls| && job.enabled && ValidOptions(calls[i].options)
    ensures forall i :: i in states[k].executed && job.window.Some? && OriginOf(calls[i].options).Scheduled? ==>
              InsideWindow(job.window.value, calls[i].timeOfDay)
    ensures forall i :: i in states[k].executed && job.window.Some? ==>
              calls[i].options.ignoreWindow || InsideWindow(job.window.value, calls[i].timeOfDay)
  {
    RunInv(job, calls, states, steps, k);
    forall i | i in states[k].executed
      ensures i < |calls| && job.enabled && ValidOptions(calls[i].options)
      ensures job.window.Some? ==> calls[i].options.ignoreWindow || InsideWindow(job.window.value, calls[i].timeOfDay)
    {
      assert GateOf(job, calls[i]).Admits?;
      if job.window.Some? && !calls[i].options.ignoreWindow {
        WindowIsAnArc(job.window.value, calls[i].timeOfDay);
      }
    }
  }

  /** A refused invocation is neither executed nor recorded, in any interleaving. */
  lemma RefusedLeavesNoTrace(job: Job, calls: seq<Call>, states: seq<State>, steps: seq<Step>, k: nat, i: nat)
    requires Run(job, calls, states, steps) && k < |states| && i < |calls|
    requires calls[i].options.origin == Some(OtherOrigin) || job.fingerprint.None? || calls[i].runId.None?
             || (calls[i].options.ignoreWindow && calls[i].options.origin == Some(Scheduled))
    ensures i !in states[k].executed && i !in states[k].recorded
  {
    RunInv(job, calls, states, steps, k);
    assert Gates(job, calls)[i].Refuses?;
  }

  /**
   * Once settled, a result survives recording, notification, whatever it delivers, and every other invocation's steps.
   */
  lemma {:induction false} SettledResultStays(job: Job, calls: seq<Call>, states: seq<State>, steps: seq<Step>, i: nat,
                                              j: nat, k: nat)
    requires Run(job, calls, states, steps) && j <= k < |states| && i < |calls|
    requires |states[j].phases| == |calls| && Settled(states[j].phases[i])
    ensures |states[k].phases| == |calls|
    ensures states[k].phases[i].Died?
            || (Settled(states[k].phases[i]) && states[k].phases[i].result == states[j].phases[i].result)
  {
    RunInv(job, calls, states, steps, k);
    if j < k {
      SettledResultStays(job, calls, states, steps, i, j, k - 1);
    }
  }

  /** What returned with an error is never settled as a success. */
  lemma ErrorIsNoSuccess(job: Job, calls: seq<Call>, states: seq<State>, steps: seq<Step>, j: nat, k: nat)
    requires Run(job, calls, states, steps) && j < k < |states|
    requires steps[j].Return? && steps[j].execution.error.Some?
    ensures steps[j].i < |states[k].phases|
    ensures var phase := states[k].phases[steps[j].i];
            phase.Died? || (Settled(phase) && phase.result != Success)
  {
    RunInv(job, calls, states, steps, k);
    SettledResultStays(job, calls, states, steps, steps[j].i, j + 1, k);
  }

  /** An invocation may die until it is done or refused, and then holds the lock no longer, so another may take it. */
  lemma DeathFreesTheLock(job: Job, calls: seq<Call>, states: seq<State>, steps: seq<Step>, k: nat, i: nat)
    requires Run(job, calls, states, steps) && k < |states| && i < |calls| && |states[k].phases| == |calls|
    requires !states[k].phases[i].Done? && !states[k].phases[i].Refused? && !states[k].phases[i].Died?
    ensures Enabled(states[k], Die(i))
    ensures var after := Next(Gates(job, calls), states[k], Die(i));
            && after.holder != Some(i) && after.phases == states[k].phases[i := Died]
            && (states[k].phases[i].Executing? ==> after.holder.None?)
            && after.executed == states[k].executed && after.recorded == states[k].recorded
  {
    RunInv(job, calls, states, steps, k);
  }

  /** An invocation turned away because the job is running really met another invocation holding the lock. */
  lemma TurnedAwayByAnother(job: Job, calls: seq<Call>, states: seq<State>, steps: seq<Step>, k: nat)
    requires Run(job, calls, states, steps) && k < |steps| && steps[k].Acquire?
             && states[k + 1].phases[steps[k].i].Closing?
    ensures states[k].holder.Some? && states[k].holder.value != steps[k].i
    ensures states[k].holder.value < |calls| && !states[k].phases[states[k].holder.value].Done?
  {
    RunInv(job, calls, states, steps, k);
  }
}
