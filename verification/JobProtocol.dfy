/**
 * The executor's job protocol: concurrent publishers, one FIFO channel and one worker around a shared
 * map of batch states. A step is one lock section or one channel operation; any interleaving is a run.
 */
module JobProtocol {
  import opened Machine

  type Id = string

  datatype BatchState = Pending | InProgress | Completed | Failed(reason: string)

  /** Where a publisher is between its lock section and its reply. */
  datatype Publisher = Sending(id: Id) | Reporting(id: Id)

  /** `Dead` is a worker task that panicked: its receiver and every queued job are dropped. */
  datatype Worker = Waiting | Received(id: Id) | Running(id: Id) | Dead

  datatype Event = Started(id: Id) | RunSucceeded(id: Id) | RunFailed(id: Id)

  datatype State = State(
    states: map<Id, BatchState>, publishers: map<nat, Publisher>, queue: seq<Id>, worker: Worker, log: seq<Event>)

  datatype Step =
    | Publish(pid: nat, id: Id)        // the lock section of publish_batch
    | Send(pid: nat)                   // the channel takes the job
    | SendFails(pid: nat)              // the channel is closed
    | Report(pid: nat, reason: string) // set_batch_state(Failed) after a failed send
    | Cancel(pid: nat)                 // the request future is dropped at an await
    | Receive                          // job_rx.recv()
    | Begin                            // set_batch_state(InProgress)
    | Finish(error: Option<string>)    // set_batch_state(Completed or Failed)
    | Crash

  const INITIAL := State(map[], map[], [], Waiting, [])

  /** An id blocks a new publication unless its last attempt failed. */
  predicate Blocked(states: map<Id, BatchState>, id: Id) {
    id in states && !states[id].Failed?
  }

  predicate Enabled(s: State, capacity: nat, step: Step) {
    match step
    case Publish(pid, _) => pid !in s.publishers
    case Send(pid) =>
      pid in s.publishers && s.publishers[pid].Sending? && s.worker != Dead && |s.queue| < capacity
    case SendFails(pid) => pid in s.publishers && s.publishers[pid].Sending? && s.worker == Dead
    case Report(pid, _) => pid in s.publishers && s.publishers[pid].Reporting?
    case Cancel(pid) => pid in s.publishers
    case Receive => s.worker == Waiting && s.queue != []
    case Begin => s.worker.Received?
    case Finish(_) => s.worker.Running?
    case Crash => s.worker != Dead
  }

  function Next(s: State, capacity: nat, step: Step): State
    requires Enabled(s, capacity, step)
  {
    match step
    case Publish(pid, id) =>
      if Blocked(s.states, id) then s
      else s.(states := s.states[id := Pending], publishers := s.publishers[pid := Sending(id)])
    case Send(pid) => s.(queue := s.queue + [s.publishers[pid].id], publishers := s.publishers - {pid})
    case SendFails(pid) => s.(publishers := s.publishers[pid := Reporting(s.publishers[pid].id)])
    case Report(pid, reason) =>
      s.(states := s.states[s.publishers[pid].id := Failed(reason)], publishers := s.publishers - {pid})
    case Cancel(pid) => s.(publishers := s.publishers - {pid})
    case Receive => s.(worker := Received(s.queue[0]), queue := s.queue[1..])
    case Begin =>
      s.(states := s.states[s.worker.id := InProgress], worker := Running(s.worker.id),
         log := s.log + [Started(s.worker.id)])
    case Finish(error) =>
      if error.None? then
        s.(states := s.states[s.worker.id := Completed], worker := Waiting, log := s.log + [RunSucceeded(s.worker.id)])
      else
        s.(states := s.states[s.worker.id := Failed(error.value)], worker := Waiting,
           log := s.log + [RunFailed(s.worker.id)])
    case Crash => s.(worker := Dead, queue := [])
  }

  // ---------- the service ----------

  class ExecutorService {
    const capacity: nat
    var batchStates: map<Id, BatchState>
    var queue: seq<Id>
    ghost var publishers: map<nat, Publisher>
    ghost var worker: Worker
    ghost var log: seq<Event>

    ghost function View(): State
      reads this
    {
      State(batchStates, publishers, queue, worker, log)
    }

    constructor (capacity: nat)
      ensures View() == INITIAL && this.capacity == capacity
    {
      this.capacity := capacity;
      batchStates, queue, publishers, worker, log := map[], [], map[], Waiting, [];
    }

    method SetBatchState(id: Id, state: BatchState)
      modifies this`batchStates
      ensures batchStates == old(batchStates)[id := state]
    {
      batchStates := batchStates[id := state];
    }

    /** The lock section of `publish_batch`; true when this publisher goes on to send the job. */
    method TryInsert(ghost pid: nat, id: Id) returns (inserted: bool)
      requires Enabled(View(), capacity, Publish(pid, id))
      modifies this
      ensures View() == Next(old(View()), capacity, Publish(pid, id))
      ensures inserted == !Blocked(old(batchStates), id)
    {
      if id in batchStates {
        match batchStates[id]
        case Pending => return false;
        case InProgress => return false;
        case Completed => return false;
        case Failed(_) =>
      }
      batchStates := batchStates[id := Pending];
      publishers := publishers[pid := Sending(id)];
      inserted := true;
    }

    method SendJob(ghost pid: nat, id: Id)
      requires Enabled(View(), capacity, Send(pid)) && publishers[pid].id == id
      modifies this
      ensures View() == Next(old(View()), capacity, Send(pid))
    {
      queue := queue + [id];
      publishers := publishers - {pid};
    }

    method ReportSendFailure(ghost pid: nat, id: Id, reason: string)
      requires Enabled(View(), capacity, Report(pid, reason)) && publishers[pid].id == id
      modifies this
      ensures View() == Next(old(View()), capacity, Report(pid, reason))
    {
      SetBatchState(id, Failed(reason));
      publishers := publishers - {pid};
    }

    method ReceiveJob() returns (id: Id)
      requires Enabled(View(), capacity, Receive)
      modifies this
      ensures View() == Next(old(View()), capacity, Receive) && worker == Received(id)
    {
      id := queue[0];
      queue := queue[1..];
      worker := Received(id);
    }

    method BeginJob(id: Id)
      requires worker == Received(id)
      modifies this
      ensures View() == Next(old(View()), capacity, Begin)
    {
      SetBatchState(id, InProgress);
      worker := Running(id);
      log := log + [Started(id)];
    }

    method FinishJob(id: Id, error: Option<string>)
      requires worker == Running(id)
      modifies this
      ensures View() == Next(old(View()), capacity, Finish(error))
    {
      match error {
        case None =>
          SetBatchState(id, Completed);
          log := log + [RunSucceeded(id)];
        case Some(e) =>
          SetBatchState(id, Failed(e));
          log := log + [RunFailed(id)];
      }
      worker := Waiting;
    }
  }

  // ---------- what each id has been through ----------

  datatype Phase = NeverRun | Active | EndedOk | EndedFailed

  ghost function PhaseOf(log: seq<Event>, id: Id): Phase
    decreases |log|
  {
    if log == [] then NeverRun
    else
      var last := log[|log| - 1];
      if last.id != id then PhaseOf(log[..|log| - 1], id)
      else match last
           case Started(_) => Active
           case RunSucceeded(_) => EndedOk
           case RunFailed(_) => EndedFailed
  }

  /** A run starts only if the id never ran or its last run failed, and only a started run ends. */
  ghost predicate WellFormed(log: seq<Event>)
    decreases |log|
  {
    log == [] ||
    (var n := |log| - 1;
     && WellFormed(log[..n])
     && (if log[n].Started? then PhaseOf(log[..n], log[n].id) in {NeverRun, EndedFailed}
         else PhaseOf(log[..n], log[n].id) == Active))
  }

  // ---------- the invariant ----------

  ghost predicate Holds(s: State, id: Id, state: BatchState) {
    id in s.states && s.states[id] == state
  }

  /** Whoever holds a job holds it alone, and the shared map says so. */
  ghost predicate OwnersInv(s: State) {
    && (forall p, q :: p in s.publishers && q in s.publishers && p != q ==> s.publishers[p].id != s.publishers[q].id)
    && (forall p :: p in s.publishers ==> Holds(s, s.publishers[p].id, Pending) && s.publishers[p].id !in s.queue)
    && (forall i, j :: 0 <= i < j < |s.queue| ==> s.queue[i] != s.queue[j])
    && (forall i :: 0 <= i < |s.queue| ==> Holds(s, s.queue[i], Pending))
    && (s.worker.Received? ==>
          && Holds(s, s.worker.id, Pending) && s.worker.id !in s.queue
          && forall p :: p in s.publishers ==> s.publishers[p].id != s.worker.id)
    && (s.worker.Running? ==> Holds(s, s.worker.id, InProgress))
  }

  ghost predicate PhaseAgrees(s: State, id: Id) {
    match PhaseOf(s.log, id)
    case NeverRun => id in s.states ==> s.states[id] != InProgress && s.states[id] != Completed
    case Active => Holds(s, id, InProgress) && (s.worker == Running(id) || s.worker == Dead)
    case EndedOk => Holds(s, id, Completed)
    case EndedFailed => id in s.states && s.states[id] != InProgress && s.states[id] != Completed
  }

  ghost predicate LogInv(s: State) {
    WellFormed(s.log) && forall id :: PhaseAgrees(s, id)
  }

  ghost predicate RunningInv(s: State) {
    s.worker.Running? ==> PhaseOf(s.log, s.worker.id) == Active
  }

  ghost predicate Inv(s: State) {
    OwnersInv(s) && LogInv(s) && RunningInv(s)
  }

  lemma PublishKeepsOwners(s: State, pid: nat, id: Id)
    requires OwnersInv(s) && pid !in s.publishers && !Blocked(s.states, id)
    ensures OwnersInv(s.(states := s.states[id := Pending], publishers := s.publishers[pid := Sending(id)]))
  {
  }

  lemma SendKeepsOwners(s: State, pid: nat)
    requires OwnersInv(s) && pid in s.publishers
    ensures OwnersInv(s.(queue := s.queue + [s.publishers[pid].id], publishers := s.publishers - {pid}))
  {
  }

  lemma ReceiveKeepsOwners(s: State)
    requires OwnersInv(s) && s.queue != []
    ensures OwnersInv(s.(worker := Received(s.queue[0]), queue := s.queue[1..]))
  {
  }

  /** A state change of an id that nobody else holds. */
  lemma MarkKeepsOwners(s: State, id: Id, state: BatchState, worker: Worker)
    requires OwnersInv(s) && id !in s.queue
    requires forall p :: p in s.publishers ==> s.publishers[p].id != id
    requires || (worker == s.worker && (worker.Received? || worker.Running? ==> worker.id != id))
             || worker == Waiting
             || (worker == Running(id) && state == InProgress)
    ensures OwnersInv(s.(states := s.states[id := state], worker := worker))
  {
  }

  lemma FinishKeepsOwners(s: State, state: BatchState)
    requires OwnersInv(s) && s.worker.Running?
    ensures OwnersInv(s.(states := s.states[s.worker.id := state], worker := Waiting))
  {
    MarkKeepsOwners(s, s.worker.id, state, Waiting);
  }

  predicate IsWorkerStep(step: Step) {
    step.Receive? || step.Begin? || step.Finish? || step.Crash?
  }

  lemma PublishersKeepOwners(s: State, capacity: nat, step: Step)
    requires Inv(s) && Enabled(s, capacity, step) && !IsWorkerStep(step)
    ensures OwnersInv(Next(s, capacity, step))
  {
    match step
    case Publish(pid, id) =>
      if !Blocked(s.states, id) { PublishKeepsOwners(s, pid, id); }
    case Send(pid) => SendKeepsOwners(s, pid);
    case Report(pid, reason) =>
      MarkKeepsOwners(s.(publishers := s.publishers - {pid}), s.publishers[pid].id, Failed(reason), s.worker);
    case _ =>
  }

  lemma WorkerKeepsOwners(s: State, capacity: nat, step: Step)
    requires Inv(s) && Enabled(s, capacity, step) && IsWorkerStep(step)
    ensures OwnersInv(Next(s, capacity, step))
  {
    match step
    case Receive => ReceiveKeepsOwners(s);
    case Begin => MarkKeepsOwners(s, s.worker.id, InProgress, Running(s.worker.id));
    case Finish(error) => FinishKeepsOwners(s, if error.None? then Completed else Failed(error.value));
    case _ =>
  }

  lemma OwnersKept(s: State, capacity: nat, step: Step)
    requires Inv(s) && Enabled(s, capacity, step)
    ensures OwnersInv(Next(s, capacity, step))
  {
    if IsWorkerStep(step) {
      WorkerKeepsOwners(s, capacity, step);
    } else {
      PublishersKeepOwners(s, capacity, step);
    }
  }

  lemma PhaseSnoc(log: seq<Event>, e: Event, id: Id)
    ensures PhaseOf(log + [e], id) ==
            if e.id != id then PhaseOf(log, id)
            else match e case Started(_) => Active case RunSucceeded(_) => EndedOk case RunFailed(_) => EndedFailed
  {
    assert (log + [e])[..|log|] == log;
  }

  lemma LogKept(s: State, capacity: nat, step: Step)
    requires Inv(s) && Enabled(s, capacity, step)
    ensures LogInv(Next(s, capacity, step)) && RunningInv(Next(s, capacity, step))
  {
    if step.Begin? || step.Finish? {
      LoggedStepKept(s, capacity, step);
    } else {
      var t := Next(s, capacity, step);
      forall id ensures PhaseAgrees(t, id) {
        assert PhaseAgrees(s, id);
      }
    }
  }

  lemma LoggedStepKept(s: State, capacity: nat, step: Step)
    requires Inv(s) && Enabled(s, capacity, step) && (step.Begin? || step.Finish?)
    ensures LogInv(Next(s, capacity, step)) && RunningInv(Next(s, capacity, step))
  {
    var t := Next(s, capacity, step);
    var e := t.log[|s.log|];
    assert PhaseAgrees(s, e.id);
    WellFormedSnoc(s.log, e);
    PhaseSnoc(s.log, e, e.id);
    forall id ensures PhaseAgrees(t, id) {
      LoggedStepAgrees(s, capacity, step, id);
    }
  }

  lemma LoggedStepAgrees(s: State, capacity: nat, step: Step, id: Id)
    requires Inv(s) && Enabled(s, capacity, step) && (step.Begin? || step.Finish?)
    ensures PhaseAgrees(Next(s, capacity, step), id)
  {
    assert PhaseAgrees(s, id);
    PhaseSnoc(s.log, Next(s, capacity, step).log[|s.log|], id);
  }

  lemma WellFormedSnoc(log: seq<Event>, e: Event)
    requires WellFormed(log)
    requires if e.Started? then PhaseOf(log, e.id) in {NeverRun, EndedFailed} else PhaseOf(log, e.id) == Active
    ensures WellFormed(log + [e])
  {
    assert (log + [e])[..|log|] == log;
  }

  // ---------- every run ----------

  ghost predicate StepsTo(capacity: nat, s: State, step: Step, t: State) {
    Enabled(s, capacity, step) && t == Next(s, capacity, step)
  }

  ghost predicate IsRun(capacity: nat, run: seq<State>, steps: seq<Step>) {
    && |run| == |steps| + 1
    && run[0] == INITIAL
    && forall k {:trigger steps[k]} :: 0 <= k < |steps| ==> StepsTo(capacity, run[k], steps[k], run[k + 1])
  }

  lemma {:induction false} InvHolds(capacity: nat, run: seq<State>, steps: seq<Step>, k: nat)
    requires IsRun(capacity, run, steps) && k < |run|
    ensures Inv(run[k])
    decreases k
  {
    if k > 0 {
      InvHolds(capacity, run, steps, k - 1);
      OwnersKept(run[k - 1], capacity, steps[k - 1]);
      LogKept(run[k - 1], capacity, steps[k - 1]);
    }
  }

  /** Jobs of one id that are inserted and not sent, queued, or with the worker. */
  ghost function InFlight(s: State, id: Id): nat {
    |set p | p in s.publishers && s.publishers[p].id == id|
    + multiset(s.queue)[id]
    + if (s.worker.Received? || s.worker.Running?) && s.worker.id == id then 1 else 0
  }

  lemma {:induction false} CountInDistinct(queue: seq<Id>, id: Id)
    requires forall i, j :: 0 <= i < j < |queue| ==> queue[i] != queue[j]
    ensures multiset(queue)[id] == if id in queue then 1 else 0
    decreases |queue|
  {
    if queue != [] {
      var n := |queue| - 1;
      CountInDistinct(queue[..n], id);
      assert queue == queue[..n] + [queue[n]];
    }
  }

  lemma AtMostOneInFlight(s: State, id: Id)
    requires Inv(s)
    ensures InFlight(s, id) <= 1
    ensures InFlight(s, id) == 1 ==> Holds(s, id, Pending) || Holds(s, id, InProgress)
  {
    var holders := set p | p in s.publishers && s.publishers[p].id == id;
    CountInDistinct(s.queue, id);
    if p :| p in holders {
      assert holders == {p};
    }
    if id in s.queue {
      var i :| 0 <= i < |s.queue| && s.queue[i] == id;
      assert Holds(s, s.queue[i], Pending);
    }
  }

  /** In every interleaving at most one job of an id is in flight, and then the id is marked pending or in progress. */
  lemma OneJobPerId(capacity: nat, run: seq<State>, steps: seq<Step>, k: nat, id: Id)
    requires IsRun(capacity, run, steps) && k < |run|
    ensures InFlight(run[k], id) <= 1
    ensures InFlight(run[k], id) == 1 ==> Holds(run[k], id, Pending) || Holds(run[k], id, InProgress)
  {
    InvHolds(capacity, run, steps, k);
    AtMostOneInFlight(run[k], id);
  }

  lemma CompletedKept(s: State, capacity: nat, step: Step, id: Id)
    requires Inv(s) && Enabled(s, capacity, step) && Holds(s, id, Completed)
    ensures Holds(Next(s, capacity, step), id, Completed)
    ensures s.log <= Next(s, capacity, step).log
    ensures forall k :: |s.log| <= k < |Next(s, capacity, step).log| ==> Next(s, capacity, step).log[k].id != id
  {
  }

  /** A completed id stays completed, holds no job and never starts again. */
  lemma {:induction false} CompletedIsFinal(capacity: nat, run: seq<State>, steps: seq<Step>, j: nat, k: nat, id: Id)
    requires IsRun(capacity, run, steps) && j <= k < |run|
    requires Holds(run[j], id, Completed)
    ensures Holds(run[k], id, Completed) && InFlight(run[k], id) == 0
    ensures run[j].log <= run[k].log
    ensures forall m :: |run[j].log| <= m < |run[k].log| ==> run[k].log[m].id != id
    decreases k
  {
    if j < k {
      CompletedIsFinal(capacity, run, steps, j, k - 1, id);
      InvHolds(capacity, run, steps, k - 1);
      var s, t := run[k - 1], run[k];
      assert StepsTo(capacity, s, steps[k - 1], t);
      CompletedKept(s, capacity, steps[k - 1], id);
    }
    InvHolds(capacity, run, steps, k);
    AtMostOneInFlight(run[k], id);
  }

  /** In a well-formed log, once a run of an id has succeeded nothing more happens to it. */
  lemma {:induction false} SuccessIsLast(log: seq<Event>, i: nat)
    requires WellFormed(log) && i < |log| && log[i].RunSucceeded?
    ensures PhaseOf(log, log[i].id) == EndedOk
    ensures forall k :: i < k < |log| ==> log[k].id != log[i].id
    decreases |log|
  {
    var n := |log| - 1;
    if i < n {
      SuccessIsLast(log[..n], i);
    }
  }

  lemma {:induction false} PhaseSinceStart(log: seq<Event>, i: nat)
    requires WellFormed(log) && i < |log| && log[i].Started?
    ensures match PhaseOf(log, log[i].id)
            case NeverRun => false
            case EndedFailed => exists k :: i < k < |log| && log[k] == RunFailed(log[i].id)
            case _ => true
    decreases |log|
  {
    var n := |log| - 1;
    if i < n && log[n].id != log[i].id {
      PhaseSinceStart(log[..n], i);
      if PhaseOf(log, log[i].id) == EndedFailed {
        var k :| i < k < n && log[..n][k] == RunFailed(log[i].id);
        assert log[k] == RunFailed(log[i].id);
      }
    } else if i < n && log[n].RunFailed? {
      assert log[n] == RunFailed(log[i].id);
    }
  }

  /**
   * In every interleaving, a second run of an id starts only after a failed run in between, and never after a
   * success.
   */
  lemma RerunOnlyAfterFailure(capacity: nat, run: seq<State>, steps: seq<Step>, k: nat, i: nat, j: nat, id: Id)
    requires IsRun(capacity, run, steps) && k < |run|
    requires i < j < |run[k].log| && run[k].log[i] == Started(id) == run[k].log[j]
    ensures exists m :: i < m < j && run[k].log[m] == RunFailed(id)
    ensures RunSucceeded(id) !in run[k].log[..j]
  {
    InvHolds(capacity, run, steps, k);
    var log := run[k].log;
    WellFormedPrefix(log, j + 1);
    var prefix := log[..j];
    assert log[..j + 1][..j] == prefix;
    PhaseSinceStart(prefix, i);
    var m :| i < m < |prefix| && prefix[m] == RunFailed(id);
    assert log[m] == RunFailed(id);
    if RunSucceeded(id) in prefix {
      var x :| 0 <= x < |prefix| && prefix[x] == RunSucceeded(id);
      SuccessIsLast(prefix, x);
    }
  }

  lemma {:induction false} WellFormedPrefix(log: seq<Event>, k: nat)
    requires WellFormed(log) && k <= |log|
    ensures WellFormed(log[..k])
    decreases |log|
  {
    if k == |log| {
      assert log[..k] == log;
    } else {
      WellFormedPrefix(log[..|log| - 1], k);
      assert log[..|log| - 1][..k] == log[..k];
    }
  }
}
