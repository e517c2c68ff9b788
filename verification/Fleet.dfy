/** `internal/fleet/fleet.go`: a bounded pool of workers. */
module Fleet {
  // Workers are fed through an unbuffered channel, under cancellation. Every interleaving is a run of the step relation
  // below; a `select` with several ready cases enables several steps.

  import opened Text

  datatype Failure<E> = Canceled | OperationError(error: E)

  /** One result cell; its two fields are written separately. */
  datatype Slot<R, E> = Slot(value: Option<R>, err: Option<Failure<E>>)

  datatype Worker<R, E> =
    | Idle
    | Running(index: nat)
    | Returning(index: nat, value: R, err: Option<Failure<E>>)
    | HalfWritten(index: nat, value: R, err: Option<Failure<E>>)
    | Gone

  datatype Dispatcher = Sending | Marking(next: nat) | Waiting | Returned

  /** `started` lists the indices handed out so far, `outcomes` what their operations returned. */
  datatype State<R, E> = State(
    queued: nat, dispatcher: Dispatcher, closed: bool, cancelled: bool,
    workers: seq<Worker<R, E>>, slots: seq<Slot<R, E>>, started: seq<nat>, outcomes: map<nat, (R, Option<Failure<E>>)>)

  datatype Step<R, E> =
    | Cancel
    | HandOver(w: nat)
    | StopSending
    | MarkOne
    | CloseJobs
    | LeaveOnCancel(w: nat)
    | LeaveOnClose(w: nat)
    | OperationReturns(w: nat, value: R, err: Option<Failure<E>>)
    | WriteValue(w: nat)
    | WriteError(w: nat)
    | Return

  datatype Start<R, E> = InvalidParallelism | Empty | Begin(state: State<R, E>)

  /** The sequential part of `Map`, before the workers run. */
  function Launch<R, E>(n: nat, parallel: int): (r: Start<R, E>)
    ensures r.InvalidParallelism? <==> parallel < 1
    ensures r.Begin? ==>
              Inv(r.state) && |r.state.slots| == n && |r.state.workers| == if parallel < n then parallel else n
  {
    if parallel < 1 then InvalidParallelism
    else if n == 0 then Empty
    else
      Begin(State(0, Sending, false, false,
                  seq(if parallel < n then parallel else n, _ => Idle), seq(n, _ => Slot(None, None)), [], map[]))
  }

  predicate Busy<R, E>(worker: Worker<R, E>) {
    worker.Running? || worker.Returning? || worker.HalfWritten?
  }

  predicate Enabled<R, E>(s: State<R, E>, step: Step<R, E>) {
    match step
    case Cancel => !s.cancelled
    case HandOver(w) => s.dispatcher.Sending? && s.queued < |s.slots| && w < |s.workers| && s.workers[w].Idle?
    case StopSending => s.dispatcher.Sending? && s.queued < |s.slots| && s.cancelled
    case MarkOne => s.dispatcher.Marking? && s.dispatcher.next < |s.slots|
    case CloseJobs =>
      || (s.dispatcher.Sending? && s.queued == |s.slots|)
      || (s.dispatcher.Marking? && s.dispatcher.next == |s.slots|)
    case LeaveOnCancel(w) => w < |s.workers| && s.workers[w].Idle? && s.cancelled
    case LeaveOnClose(w) => w < |s.workers| && s.workers[w].Idle? && s.closed
    case OperationReturns(w, _, err) => w < |s.workers| && s.workers[w].Running?
    case WriteValue(w) => w < |s.workers| && s.workers[w].Returning?
    case WriteError(w) => w < |s.workers| && s.workers[w].HalfWritten?
    case Return => s.dispatcher.Waiting? && forall w :: 0 <= w < |s.workers| ==> s.workers[w].Gone?
  }

  function Next<R, E>(s: State<R, E>, step: Step<R, E>): State<R, E>
    requires Enabled(s, step)
    requires step.MarkOne? || step.WriteValue? || step.WriteError? ==>
               forall i :: i in Writes(s, step) ==> i < |s.slots|
  {
    match step
    case Cancel => s.(cancelled := true)
    case HandOver(w) => s.(queued := s.queued + 1, workers := s.workers[w := Running(s.queued)],
                           started := s.started + [s.queued])
    case StopSending => s.(dispatcher := Marking(s.queued))
    case MarkOne =>
      var i := s.dispatcher.next;
      s.(dispatcher := Marking(i + 1), slots := s.slots[i := s.slots[i].(err := Some(Canceled))])
    case CloseJobs => s.(dispatcher := Waiting, closed := true)
    case LeaveOnCancel(w) => s.(workers := s.workers[w := Gone])
    case LeaveOnClose(w) => s.(workers := s.workers[w := Gone])
    case OperationReturns(w, value, err) =>
      var i := s.workers[w].index;
      s.(workers := s.workers[w := Returning(i, value, err)], outcomes := s.outcomes[i := (value, err)])
    case WriteValue(w) =>
      var worker := s.workers[w];
      assert worker.index in Writes(s, step);
      s.(workers := s.workers[w := HalfWritten(worker.index, worker.value, worker.err)],
         slots := s.slots[worker.index := s.slots[worker.index].(value := Some(worker.value))])
    case WriteError(w) =>
      var worker := s.workers[w];
      assert worker.index in Writes(s, step);
      s.(workers := s.workers[w := Idle],
         slots := s.slots[worker.index := s.slots[worker.index].(err := worker.err)])
    case Return => s.(dispatcher := Returned)
  }

  /** The result cells a step writes. */
  function Writes<R, E>(s: State<R, E>, step: Step<R, E>): set<nat>
    requires Enabled(s, step)
  {
    match step
    case MarkOne => {s.dispatcher.next}
    case WriteValue(w) => {s.workers[w].index}
    case WriteError(w) => {s.workers[w].index}
    case _ => {}
  }

  // ---- what every reachable state satisfies

  /** Worker `w` and the cell it is working on. */
  ghost predicate WorkerInv<R, E>(s: State<R, E>, w: nat)
    requires w < |s.workers|
  {
    var worker := s.workers[w];
    && (Busy(worker) ==> worker.index < s.queued <= |s.slots|)
    && (worker.Running? ==> worker.index !in s.outcomes && s.slots[worker.index] == Slot(None, None))
    && (worker.Returning? ==>
          worker.index in s.outcomes && s.outcomes[worker.index] == (worker.value, worker.err)
          && s.slots[worker.index] == Slot(None, None))
    && (worker.HalfWritten? ==>
          worker.index in s.outcomes && s.outcomes[worker.index] == (worker.value, worker.err)
          && s.slots[worker.index] == Slot(Some(worker.value), None))
    && (worker.Gone? ==> s.cancelled || s.closed)
  }

  ghost predicate Held<R, E>(s: State<R, E>, i: nat) {
    exists w :: 0 <= w < |s.workers| && Busy(s.workers[w]) && s.workers[w].index == i
  }

  /** The index was operated on and its result is in place. */
  ghost predicate Finished<R, E>(s: State<R, E>, i: nat)
    requires i < |s.slots|
  {
    i in s.outcomes && s.slots[i] == Slot(Some(s.outcomes[i].0), s.outcomes[i].1)
  }

  /** How far the dispatcher has marked cells it will not hand out. */
  ghost function MarkedUpTo<R, E>(s: State<R, E>): nat {
    match s.dispatcher
    case Sending => s.queued
    case Marking(next) => next
    case _ => |s.slots|
  }

  ghost predicate Inv<R, E>(s: State<R, E>) {
    && s.workers != [] && s.queued <= |s.slots|
    && s.started == seq(s.queued, i => i)
    && (s.closed <==> s.dispatcher.Waiting? || s.dispatcher.Returned?)
    && (s.dispatcher.Marking? ==> s.cancelled && s.queued <= s.dispatcher.next <= |s.slots|)
    && (s.closed && s.queued < |s.slots| ==> s.cancelled)
    && (s.dispatcher.Returned? ==> forall w :: 0 <= w < |s.workers| ==> s.workers[w].Gone?)
    && (forall w :: 0 <= w < |s.workers| ==> WorkerInv(s, w))
    && (forall w, v :: 0 <= w < v < |s.workers| && Busy(s.workers[w]) && Busy(s.workers[v]) ==>
          s.workers[w].index != s.workers[v].index)
    && (forall i :: 0 <= i < s.queued ==> Held(s, i) || Finished(s, i))
    && forall i :: s.queued <= i < |s.slots| ==>
      i !in s.outcomes && s.slots[i] == Slot(None, if i < MarkedUpTo(s) then Some(Canceled) else None)
  }

  lemma WritesInRange<R, E>(s: State<R, E>, step: Step<R, E>)
    requires Inv(s) && Enabled(s, step)
    ensures forall i :: i in Writes(s, step) ==> i < |s.slots|
  {
    match step
    case WriteValue(w) => assert WorkerInv(s, w);
    case WriteError(w) => assert WorkerInv(s, w);
    case _ =>
  }

  /** A step that changes worker `w` only keeps every index handed out either held or finished. */
  lemma StillHeld<R, E>(s: State<R, E>, s': State<R, E>, w: nat, i: nat)
    requires w < |s.workers| && |s'.workers| == |s.workers| && s'.workers == s.workers[w := s'.workers[w]]
    requires Held(s, i) && (Busy(s.workers[w]) && s.workers[w].index == i ==>
                            Busy(s'.workers[w]) && s'.workers[w].index == i)
    ensures Held(s', i)
  {
    var v :| 0 <= v < |s.workers| && Busy(s.workers[v]) && s.workers[v].index == i;
    assert Busy(s'.workers[v]) && s'.workers[v].index == i;
  }

  lemma InvKept<R, E>(s: State<R, E>, step: Step<R, E>)
    requires Inv(s) && Enabled(s, step)
    ensures forall i :: i in Writes(s, step) ==> i < |s.slots|
    ensures Inv(Next(s, step))
    ensures |Next(s, step).workers| == |s.workers| && |Next(s, step).slots| == |s.slots|
  {
    WritesInRange(s, step);
    match step
    case HandOver(w) => HandOverKeeps(s, w);
    case OperationReturns(_, _, _) => WorkerKeeps(s, step);
    case WriteValue(_) => WorkerKeeps(s, step);
    case WriteError(_) => WorkerKeeps(s, step);
    case LeaveOnCancel(_) => WorkerKeeps(s, step);
    case LeaveOnClose(_) => WorkerKeeps(s, step);
    case _ => DispatcherKeeps(s, step);
  }

  lemma HandOverKeeps<R, E>(s: State<R, E>, w: nat)
    requires Inv(s) && Enabled(s, HandOver(w))
    ensures Inv(Next(s, HandOver(w)))
  {
    var s' := Next(s, HandOver(w));
    forall v | 0 <= v < |s.workers|
      ensures WorkerInv(s', v) && (Busy(s.workers[v]) ==> s.workers[v].index < s.queued)
    {
      assert WorkerInv(s, v);
    }
    HeldKept(s, s', w);
    assert Held(s', s.queued) by {
      assert s'.workers[w].index == s.queued && Busy(s'.workers[w]);
    }
  }

  /** Steps of one worker other than receiving a job. */
  lemma WorkerKeeps<R, E>(s: State<R, E>, step: Step<R, E>)
    requires Inv(s) && Enabled(s, step) && Actor(step).Some? && !step.HandOver?
    requires forall i :: i in Writes(s, step) ==> i < |s.slots|
    ensures Inv(Next(s, step))
  {
    var s', w := Next(s, step), Actor(step).value;
    assert WorkerInv(s, w);
    forall v | 0 <= v < |s.workers|
      ensures WorkerInv(s', v)
    {
      assert WorkerInv(s, v);
    }
    HeldKept(s, s', w);
    forall i | 0 <= i < s.queued
      ensures Held(s', i) || Finished(s', i)
    {
      assert Held(s, i) || Finished(s, i);
    }
  }

  /** Steps of the dispatcher alone, and cancellation. */
  lemma DispatcherKeeps<R, E>(s: State<R, E>, step: Step<R, E>)
    requires Inv(s) && Enabled(s, step) && Actor(step).None?
    requires forall i :: i in Writes(s, step) ==> i < |s.slots|
    ensures Inv(Next(s, step))
  {
    var s' := Next(s, step);
    forall v | 0 <= v < |s.workers|
      ensures WorkerInv(s', v)
    {
      assert WorkerInv(s, v);
    }
    HeldKept(s, s', 0);
    forall i | 0 <= i < s.queued
      ensures Held(s', i) || Finished(s', i)
    {
      assert Held(s, i) || Finished(s, i);
    }
  }

  lemma HeldKept<R, E>(s: State<R, E>, s': State<R, E>, w: nat)
    requires w < |s.workers| && |s'.workers| == |s.workers| && s'.workers == s.workers[w := s'.workers[w]]
    ensures forall i: nat :: Held(s, i) && !(Busy(s.workers[w]) && s.workers[w].index == i) ==> Held(s', i)
    ensures Busy(s.workers[w]) && Busy(s'.workers[w]) && s'.workers[w].index == s.workers[w].index ==>
      Held(s', s.workers[w].index)
  {
    forall i: nat | Held(s, i) && !(Busy(s.workers[w]) && s.workers[w].index == i)
      ensures Held(s', i)
    {
      StillHeld(s, s', w, i);
    }
  }

  // ---- whole runs

  /** `states` is a run of `Map` taking the steps `steps`. */
  ghost predicate Run<R, E>(n: nat, parallel: int, states: seq<State<R, E>>, steps: seq<Step<R, E>>) {
    && |states| == |steps| + 1
    && Launch(n, parallel) == Begin(states[0])
    && forall k :: 0 <= k < |steps| ==> StepsTo(states[k], steps[k], states[k + 1])
  }

  ghost predicate StepsTo<R, E>(s: State<R, E>, step: Step<R, E>, s': State<R, E>) {
    && Enabled(s, step) && (forall i :: i in Writes(s, step) ==> i < |s.slots|) && s' == Next(s, step)
  }

  lemma {:induction false} RunInv<R, E>(n: nat, parallel: int, states: seq<State<R, E>>, steps: seq<Step<R, E>>, k: nat)
    requires Run(n, parallel, states, steps) && k <= |steps|
    ensures Inv(states[k]) && |states[k].slots| == n
    ensures |states[k].workers| == if parallel < n then parallel else n
  {
    if k > 0 {
      RunInv(n, parallel, states, steps, k - 1);
      assert StepsTo(states[k - 1], steps[k - 1], states[k]);
      InvKept(states[k - 1], steps[k - 1]);
    }
  }

  /** The indices being operated on. */
  ghost function InFlight<R, E>(s: State<R, E>): set<nat> {
    set w | 0 <= w < |s.workers| && s.workers[w].Running? :: s.workers[w].index
  }

  lemma {:induction false} ImageAtMost(size: nat, f: nat -> nat, image: set<nat>)
    requires forall i :: i in image ==> exists w: nat :: w < size && f(w) == i
    ensures |image| <= size
  {
    if size == 0 {
      assert image == {};
    } else {
      var rest := image - {f(size - 1)};
      forall i | i in rest
        ensures exists w: nat :: w < size - 1 && f(w) == i
      {
        var w: nat :| w < size && f(w) == i;
        assert w < size - 1;
      }
      ImageAtMost(size - 1, f, rest);
      assert image <= rest + {f(size - 1)};
    }
  }

  /** At any moment of any run at most `min(parallel, n)` operations are in flight. */
  lemma BoundedConcurrency<R, E>(n: nat, parallel: int, states: seq<State<R, E>>, steps: seq<Step<R, E>>, k: nat)
    requires Run(n, parallel, states, steps) && k <= |steps|
    ensures |InFlight(states[k])| <= parallel && |InFlight(states[k])| <= n
  {
    RunInv(n, parallel, states, steps, k);
    var s := states[k];
    var f: nat -> nat := (w: nat) => if w < |s.workers| && Busy(s.workers[w]) then s.workers[w].index else 0;
    forall i | i in InFlight(s)
      ensures exists w: nat :: w < |s.workers| && f(w) == i
    {
      var w: nat :| w < |s.workers| && s.workers[w].Running? && s.workers[w].index == i;
      assert f(w) == i;
    }
    ImageAtMost(|s.workers|, f, InFlight(s));
  }

  /** The worker taking a step, if a worker takes it. */
  function Actor<R, E>(step: Step<R, E>): Option<nat> {
    match step
    case HandOver(w) => Some(w)
    case LeaveOnCancel(w) => Some(w)
    case LeaveOnClose(w) => Some(w)
    case OperationReturns(w, _, _) => Some(w)
    case WriteValue(w) => Some(w)
    case WriteError(w) => Some(w)
    case _ => None
  }

  /** Steps that could happen at the same time, by different actors, never write the same cell. */
  lemma WritesNeverRace<R, E>(n: nat, parallel: int, states: seq<State<R, E>>, steps: seq<Step<R, E>>, k: nat,
                              a: Step<R, E>, b: Step<R, E>)
    requires Run(n, parallel, states, steps) && k <= |steps|
    requires Enabled(states[k], a) && Enabled(states[k], b) && Actor(a) != Actor(b)
    ensures Writes(states[k], a) !! Writes(states[k], b)
  {
    RunInv(n, parallel, states, steps, k);
    var s := states[k];
    assert Actor(a).Some? ==> WorkerInv(s, Actor(a).value);
    assert Actor(b).Some? ==> WorkerInv(s, Actor(b).value);
  }

  /** A step leaves every cell it does not write as it was. */
  lemma WritesAreAll<R, E>(s: State<R, E>, step: Step<R, E>, i: nat)
    requires Inv(s) && Enabled(s, step) && i < |s.slots| && i !in Writes(s, step)
    ensures (forall j :: j in Writes(s, step) ==> j < |s.slots|) && i < |Next(s, step).slots|
            && Next(s, step).slots[i] == s.slots[i]
  {
    InvKept(s, step);
  }

  /** No index is handed out twice, and what is handed out is an initial part of the inputs. */
  lemma HandedOutOnce<R, E>(n: nat, parallel: int, states: seq<State<R, E>>, steps: seq<Step<R, E>>, k: nat)
    requires Run(n, parallel, states, steps) && k <= |steps|
    ensures Distinct(states[k].started)
    ensures forall i: nat :: i in states[k].started <==> i < states[k].queued
  {
    RunInv(n, parallel, states, steps, k);
    var started := states[k].started;
    forall i: nat | i < states[k].queued
      ensures i in started
    {
      assert started[i] == i;
    }
  }

  /**
   * When `Map` returns, each index was operated on once and holds that result, or was never handed out and is marked.
   */
  lemma ReturnedMeansComplete<R, E>(n: nat, parallel: int, states: seq<State<R, E>>, steps: seq<Step<R, E>>, k: nat,
                                    i: nat)
    requires Run(n, parallel, states, steps) && k <= |steps| && states[k].dispatcher.Returned? && i < n
    ensures |states[k].slots| == n
    ensures i in states[k].started ==> Finished(states[k], i)
    ensures i !in states[k].started ==>
      states[k].cancelled && i !in states[k].outcomes && states[k].slots[i] == Slot(None, Some(Canceled))
  {
    RunInv(n, parallel, states, steps, k);
    HandedOutOnce(n, parallel, states, steps, k);
    assert !Held(states[k], i);
  }

  // ---- results, told by the steps of a run

  /** At step `k` the operation on input `i` returns `value` and `err`. */
  ghost predicate Operates<R, E>(states: seq<State<R, E>>, steps: seq<Step<R, E>>, k: nat, i: nat,
                                 value: R, err: Option<Failure<E>>)
  {
    && k < |steps| < |states| && steps[k].OperationReturns? && steps[k].value == value && steps[k].err == err
    && steps[k].w < |states[k].workers| && states[k].workers[steps[k].w] == Running(i)
  }

  lemma {:induction false} OperatedIsKnown<R, E>(n: nat, parallel: int, states: seq<State<R, E>>,
                                                 steps: seq<Step<R, E>>, k: nat, j: nat, i: nat,
                                                 value: R, err: Option<Failure<E>>)
    requires Run(n, parallel, states, steps) && Operates(states, steps, k, i, value, err) && k < j <= |steps|
    ensures i in states[j].outcomes && states[j].outcomes[i] == (value, err)
    decreases j
  {
    RunInv(n, parallel, states, steps, j - 1);
    assert StepsTo(states[j - 1], steps[j - 1], states[j]);
    if j - 1 > k {
      OperatedIsKnown(n, parallel, states, steps, k, j - 1, i, value, err);
      if steps[j - 1].OperationReturns? {
        assert WorkerInv(states[j - 1], steps[j - 1].w);
      }
    }
  }

  lemma {:induction false} KnownWasOperated<R, E>(n: nat, parallel: int, states: seq<State<R, E>>,
                                                  steps: seq<Step<R, E>>, j: nat, i: nat) returns (k: nat)
    requires Run(n, parallel, states, steps) && j <= |steps| && i in states[j].outcomes
    ensures k < j && Operates(states, steps, k, i, states[j].outcomes[i].0, states[j].outcomes[i].1)
  {
    assert j > 0;
    RunInv(n, parallel, states, steps, j - 1);
    assert StepsTo(states[j - 1], steps[j - 1], states[j]);
    if i in states[j - 1].outcomes && states[j - 1].outcomes[i] == states[j].outcomes[i] {
      k := KnownWasOperated(n, parallel, states, steps, j - 1, i);
    } else {
      k := j - 1;
    }
  }

  /** What an operation returned, error included, is what its input's cell holds when `Map` returns. */
  lemma ResultsAreKept<R, E>(n: nat, parallel: int, states: seq<State<R, E>>, steps: seq<Step<R, E>>, k: nat, j: nat,
                             i: nat, value: R, err: Option<Failure<E>>)
    requires Run(n, parallel, states, steps) && Operates(states, steps, k, i, value, err)
    requires k < j <= |steps| && states[j].dispatcher.Returned?
    ensures i < |states[j].slots| && states[j].slots[i] == Slot(Some(value), err)
  {
    RunInv(n, parallel, states, steps, k);
    RunInv(n, parallel, states, steps, j);
    OperatedIsKnown(n, parallel, states, steps, k, j, i, value, err);
    assert WorkerInv(states[k], steps[k].w);
    assert i < |states[j].slots| && !Held(states[j], i);
  }

  /** Every input that was handed out was operated on, and no input twice. */
  lemma OperatedOnce<R, E>(n: nat, parallel: int, states: seq<State<R, E>>, steps: seq<Step<R, E>>, j: nat, i: nat)
    returns (k: nat)
    requires Run(n, parallel, states, steps) && j <= |steps| && states[j].dispatcher.Returned?
    requires i in states[j].started
    ensures k < j && exists value, err :: Operates(states, steps, k, i, value, err)
    ensures forall m: nat, value, err :: Operates(states, steps, m, i, value, err) && m < j ==> m == k
  {
    RunInv(n, parallel, states, steps, j);
    HandedOutOnce(n, parallel, states, steps, j);
    assert !Held(states[j], i) && Finished(states[j], i);
    k := KnownWasOperated(n, parallel, states, steps, j, i);
    forall m: nat, value, err | Operates(states, steps, m, i, value, err) && m < j
      ensures m == k
    {
      if m < k {
        NeverOperatedAgain(n, parallel, states, steps, m, k, i, value, err);
      } else if k < m {
        NeverOperatedAgain(n, parallel, states, steps, k, m, i, steps[k].value, steps[k].err);
      }
    }
  }

  lemma NeverOperatedAgain<R, E>(n: nat, parallel: int, states: seq<State<R, E>>, steps: seq<Step<R, E>>,
                                 k: nat, m: nat, i: nat, value: R, err: Option<Failure<E>>)
    requires Run(n, parallel, states, steps) && Operates(states, steps, k, i, value, err) && k < m < |steps|
    ensures forall value', err' :: !Operates(states, steps, m, i, value', err')
  {
    OperatedIsKnown(n, parallel, states, steps, k, m, i, value, err);
    RunInv(n, parallel, states, steps, m);
    if steps[m].OperationReturns? {
      assert StepsTo(states[m], steps[m], states[m + 1]);
      assert WorkerInv(states[m], steps[m].w);
    }
  }

  /** As long as operations return, something can always happen until `Map` returns, cancelled or not. */
  lemma NeverStuck<R, E>(n: nat, parallel: int, states: seq<State<R, E>>, steps: seq<Step<R, E>>, k: nat, value: R)
    returns (step: Step<R, E>)
    requires Run(n, parallel, states, steps) && k <= |steps| && !states[k].dispatcher.Returned?
    ensures Enabled(states[k], step) && !step.Cancel?
  {
    RunInv(n, parallel, states, steps, k);
    var s := states[k];
    if w: nat :| w < |s.workers| && Busy(s.workers[w]) {
      step := match s.workers[w]
        case Running(_) => OperationReturns(w, value, None)
        case Returning(_, _, _) => WriteValue(w)
        case _ => WriteError(w);
    } else if s.dispatcher.Marking? {
      step := if s.dispatcher.next < |s.slots| then MarkOne else CloseJobs;
    } else if s.dispatcher.Sending? {
      if s.queued == |s.slots| {
        step := CloseJobs;
      } else if s.workers[0].Idle? {
        step := HandOver(0);
      } else {
        assert WorkerInv(s, 0);
        step := StopSending;
      }
    } else if w: nat :| w < |s.workers| && s.workers[w].Idle? {
      step := LeaveOnClose(w);
    } else {
      step := Return;
    }
  }

  // ---- termination

  ghost function WorkerWork<R, E>(worker: Worker<R, E>): nat {
    match worker
    case Idle => 1
    case Running(_) => 4
    case Returning(_, _, _) => 3
    case HalfWritten(_, _, _) => 2
    case Gone => 0
  }

  ghost function WorkersWork<R, E>(workers: seq<Worker<R, E>>): nat {
    if workers == [] then 0 else WorkerWork(workers[0]) + WorkersWork(workers[1..])
  }

  lemma {:induction false} WorkUpdated<R, E>(workers: seq<Worker<R, E>>, w: nat, worker: Worker<R, E>)
    requires w < |workers|
    ensures WorkersWork(workers[w := worker]) == WorkersWork(workers) - WorkerWork(workers[w]) + WorkerWork(worker)
  {
    if w > 0 {
      WorkUpdated(workers[1..], w - 1, worker);
      assert workers[w := worker][1..] == workers[1..][w - 1 := worker];
    } else {
      assert workers[w := worker][1..] == workers[1..];
    }
  }

  ghost function DispatcherWork(d: Dispatcher, n: nat): int {
    match d
    case Sending => n + 3
    case Marking(next) => n - next + 2
    case Waiting => 1
    case Returned => 0
  }

  /** Bounds the steps still to come. */
  ghost function Work<R, E>(s: State<R, E>): int {
    (if s.cancelled then 0 else 1) + 5 * (|s.slots| - s.queued)
    + DispatcherWork(s.dispatcher, |s.slots|) + WorkersWork(s.workers)
  }

  lemma StepsWork<R, E>(s: State<R, E>, step: Step<R, E>, s': State<R, E>)
    requires Inv(s) && StepsTo(s, step, s')
    ensures 0 <= Work(s') < Work(s)
  {
    if Actor(step).Some? {
      WorkerStepsWork(s, step, s', Actor(step).value);
    }
    InvKept(s, step);
  }

  lemma WorkerStepsWork<R, E>(s: State<R, E>, step: Step<R, E>, s': State<R, E>, w: nat)
    requires Inv(s) && StepsTo(s, step, s') && Actor(step) == Some(w)
    ensures Work(s') < Work(s)
  {
    WorkUpdated(s.workers, w, s'.workers[w]);
    assert s'.workers == s.workers[w := s'.workers[w]];
  }

  /** No run is longer than a bound fixed at its start, so every run that cannot go on has returned. */
  lemma {:induction false} RunsEnd<R, E>(n: nat, parallel: int, states: seq<State<R, E>>, steps: seq<Step<R, E>>)
    requires Run(n, parallel, states, steps)
    ensures |steps| + Work(states[|steps|]) <= 6 * n + 4 + |states[0].workers|
    ensures Work(states[|steps|]) >= 0
    decreases |steps|
  {
    if steps == [] {
      IdleWork(states[0].workers);
    } else {
      var m := |steps| - 1;
      assert forall k :: 0 <= k < m ==> StepsTo(states[..m + 1][k], steps[..m][k], states[..m + 1][k + 1]);
      RunsEnd(n, parallel, states[..m + 1], steps[..m]);
      RunInv(n, parallel, states, steps, m);
      StepsWork(states[m], steps[m], states[m + 1]);
    }
  }

  lemma {:induction false} IdleWork<R, E>(workers: seq<Worker<R, E>>)
    requires forall w :: 0 <= w < |workers| ==> workers[w].Idle?
    ensures WorkersWork(workers) == |workers|
  {
    if workers != [] {
      IdleWork(workers[1..]);
    }
  }
}
