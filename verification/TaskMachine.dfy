/**
 The life of tasks on the owner thread, as a state machine.

 A cell is reference counted by whoever can reach it: the run queue, the Task being run, wakers
 owned by futures and drivers, wakers stored in other cells, and its JoinHandle. Each step is one
 call into the runtime. Every place where these parts of the source assert, panic, call
 `unreachable!` or would touch freed memory is a `Fault` here; `TaskSafety` proves which of them a
 client can reach, and when.
 */
module TaskMachine {
  import opened Options
  import opened TaskState

  type TaskId = nat

  /** What a `std::task::Waker` wakes. Wakers of this runtime are counted references to a task. */
  datatype Waker =
    | TaskWaker(task: TaskId)
    | MainWaker            // the waker of the future passed to `block_on`
    | ForeignWaker(tag: nat)

  /** `Stage<T>`: the future, then its output, then nothing. */
  datatype Stage = Running | Finished(output: int) | Consumed

  datatype Fate = Delivered(value: int) | Dropped(value: int)

  /** What has happened to a task, for specifications only: the program stores none of it. */
  datatype History = History(produced: Option<int>, fates: seq<Fate>, registered: Option<Waker>)

  datatype Cell = Cell(header: Header, stage: Stage, joinWaker: Option<Waker>, history: History)

  datatype Slot = Live(cell: Cell) | Freed(history: History)

  /** The Task popped by `block_on`: its future is being polled, or the poll is over. */
  datatype Current = NoTask | Polling(task: TaskId) | Finishing(task: TaskId)

  datatype Machine = Machine(
    slots: seq<Slot>,            // every cell ever allocated, by allocation order
    queue: seq<TaskId>,          // the local run queue of Tasks
    current: Current,
    wakers: multiset<TaskId>,    // owned task wakers held outside the cells
    joins: set<TaskId>,          // tasks whose JoinHandle exists
    closing: set<TaskId>,        // JoinHandles whose destructor is about to drop its reference
    dropping: multiset<TaskId>,  // references that destructors are about to drop
    shouldPoll: bool,            // the main future has been woken
    entered: bool,               // `block_on` is on the stack, so that CURRENT is set
    down: bool)                  // the runtime is being dropped, or has been

  datatype Fault =
    | UseAfterFree
    | NotNotified | NotIdle | NotRunning
    | RefUnderflow
    | NoJoinInterest | JoinWakerClash | WakerMissing
    | UnexpectedStage
    | PolledAfterCompletion
    | NotEntered                 // a spawn or a wake that needs CURRENT while it is not set
    | NestedRuntime              // `block_on` inside `block_on`

  datatype Result<+T> = Ok(value: T) | Fail(fault: Fault)
  {
    predicate IsFailure() { Fail? }
    function PropagateFailure<U>(): Result<U>
      requires Fail?
    {
      Fail(fault)
    }
    function Extract(): T
      requires Ok?
    {
      value
    }
  }

  function Check(condition: bool, fault: Fault): Result<()> {
    if condition then Ok(()) else Fail(fault)
  }

  // ----- access to cells -----

  predicate IsLive(m: Machine, id: TaskId) {
    id < |m.slots| && m.slots[id].Live?
  }

  function Load(m: Machine, id: TaskId): Result<Cell> {
    if IsLive(m, id) then Ok(m.slots[id].cell) else Fail(UseAfterFree)
  }

  function Store(m: Machine, id: TaskId, c: Cell): Machine
    requires id < |m.slots|
  {
    m.(slots := m.slots[id := Live(c)])
  }

  function WithHeader(m: Machine, id: TaskId, h: Header): Machine
    requires IsLive(m, id)
  {
    Store(m, id, m.slots[id].cell.(header := h))
  }

  /** Empties the stage; an output found there is delivered to the JoinHandle or dropped. */
  function Consume(c: Cell, deliver: bool): Cell {
    match c.stage
    case Finished(v) =>
      var fate := if deliver then Delivered(v) else Dropped(v);
      c.(stage := Consumed, history := c.history.(fates := c.history.fates + [fate]))
    case _ => c.(stage := Consumed)
  }

  // ----- reference counts (state.rs `ref_inc`, `ref_dec`; harness.rs `dealloc`) -----

  function RefInc(m: Machine, id: TaskId): Result<Machine> {
    var c :- Load(m, id);
    Ok(WithHeader(m, id, c.header.(refs := c.header.refs + 1)))
  }

  /** Frees the cell. Its stage and its stored join waker are dropped with it. */
  function Dealloc(m: Machine, id: TaskId): Machine
    requires IsLive(m, id)
  {
    var c := Consume(m.slots[id].cell, false);
    m.(slots := m.slots[id := Freed(c.history)], dropping := m.dropping + OwnedBy(c.joinWaker))
  }

  function OwnedBy(w: Option<Waker>): multiset<TaskId> {
    if w.Some? && w.value.TaskWaker? then multiset{w.value.task} else multiset{}
  }

  function DropReference(m: Machine, id: TaskId): Result<Machine> {
    var c :- Load(m, id);
    var _ :- Check(c.header.refs >= 1, RefUnderflow);
    if c.header.refs == 1 then
      Ok(Dealloc(m, id))
    else
      Ok(WithHeader(m, id, c.header.(refs := c.header.refs - 1)))
  }

  // ----- wakers (waker.rs, harness.rs `wake_by_val`, `wake_by_ref`) -----

  function CloneWaker(m: Machine, w: Waker): Result<Machine> {
    if w.TaskWaker? then RefInc(m, w.task) else Ok(m)
  }

  /** The wake has to queue the task, which only the runtime that runs can do. */
  predicate Submits(h: Header) {
    h.Idle() && !h.notified
  }

  function WakeByRef(m: Machine, w: Waker): Result<Machine> {
    match w
    case MainWaker => Ok(m.(shouldPoll := true))
    case ForeignWaker(_) => Ok(m)
    case TaskWaker(id) =>
      var c :- Load(m, id);
      var _ :- Check(m.entered || !Submits(c.header), NotEntered);
      var h := c.header.Notify();
      if Submits(c.header) then
        Ok(WithHeader(m, id, h.(refs := h.refs + 1)).(queue := m.queue + [id]))
      else
        Ok(WithHeader(m, id, h))
  }

  /** The reference of the waker moves into the queue, or is dropped. */
  function WakeByVal(m: Machine, id: TaskId): Result<Machine> {
    var c :- Load(m, id);
    var _ :- Check(m.entered || !Submits(c.header), NotEntered);
    var m1 := WithHeader(m, id, c.header.Notify());
    if Submits(c.header) then
      Ok(m1.(queue := m1.queue + [id]))
    else
      DropReference(m1, id)
  }

  // ----- running a task (harness.rs `poll_inner`, `poll`, `complete`; mod.rs `run`, `drop`) -----

  function Spawn(m: Machine): Result<Machine> {
    var _ :- Check(m.entered, NotEntered);
    var id := |m.slots|;
    var c := Cell(INITIAL_HEADER, Running, None, History(None, [], None));
    Ok(m.(slots := m.slots + [Live(c)], queue := m.queue + [id], joins := m.joins + {id}))
  }

  function BeginPoll(m: Machine): Result<Machine>
    requires m.queue != []
  {
    var id := m.queue[0];
    var c :- Load(m, id);
    var _ :- Check(c.header.notified, NotNotified);
    var _ :- Check(c.header.Idle(), NotIdle);
    var _ :- Check(c.stage == Running, UnexpectedStage);
    var m1 := WithHeader(m, id, c.header.(running := true, notified := false));
    Ok(m1.(queue := m.queue[1..], current := Polling(id)))
  }

  /** The future returned Pending. A task woken meanwhile goes back to the front of the queue. */
  function FinishPending(m: Machine): Result<Machine>
    requires m.current.Polling?
  {
    var id := m.current.task;
    var c :- Load(m, id);
    var _ :- Check(c.header.running, NotRunning);
    var h := c.header.(running := false);
    if c.header.notified then
      var _ :- Check(m.entered, NotEntered);
      Ok(WithHeader(m, id, h.(refs := h.refs + 1)).(current := Finishing(id), queue := [id] + m.queue))
    else
      Ok(WithHeader(m, id, h).(current := Finishing(id)))
  }

  /** The future returned Ready: store the output, complete, and drop it or wake the handle. */
  function FinishReady(m: Machine, output: int): Result<Machine>
    requires m.current.Polling?
  {
    var id := m.current.task;
    var c :- Load(m, id);
    var _ :- Check(c.header.running && !c.header.complete, NotRunning);
    var h := c.header.(running := false, complete := true);
    var done := c.(header := h, stage := Finished(output),
                   history := c.history.(produced := Some(output)));
    if !h.joinInterest then
      Ok(Store(m, id, Consume(done, false)).(current := Finishing(id)))
    else if h.joinWaker then
      var _ :- Check(done.joinWaker.Some?, WakerMissing);
      WakeByRef(Store(m, id, done).(current := Finishing(id)), done.joinWaker.value)
    else
      Ok(Store(m, id, done).(current := Finishing(id)))
  }

  function DropTask(m: Machine): Result<Machine>
    requires m.current.Finishing?
  {
    DropReference(m.(current := NoTask), m.current.task)
  }

  // ----- the JoinHandle (join.rs, harness.rs `can_read_output`, `set_join_waker`) -----

  datatype Poll = Pending | Ready(value: int)

  /** Stores a clone of `w`, dropping whatever was stored, then sets the flag. */
  function SetJoinWaker(m: Machine, id: TaskId, w: Waker): Result<Machine> {
    var m1 :- CloneWaker(m, w);
    var c :- Load(m1, id);
    var _ :- Check(c.header.joinInterest, NoJoinInterest);
    var _ :- Check(!c.header.joinWaker, JoinWakerClash);
    var c' := c.(header := c.header.(joinWaker := true), joinWaker := Some(w),
                 history := c.history.(registered := Some(w)));
    Ok(Store(m1, id, c').(dropping := m1.dropping + OwnedBy(c.joinWaker)))
  }

  function PollJoin(m: Machine, id: TaskId, w: Waker): Result<(Machine, Poll)> {
    var c :- Load(m, id);
    var _ :- Check(c.header.joinInterest, NoJoinInterest);
    if c.header.complete then
      var _ :- Check(c.stage.Finished?, PolledAfterCompletion);
      Ok((Store(m, id, Consume(c, true)), Ready(c.stage.output)))
    else if c.header.joinWaker then
      var _ :- Check(c.joinWaker.Some?, WakerMissing);
      if c.joinWaker.value == w then
        Ok((Store(m, id, c.(history := c.history.(registered := Some(w)))), Pending))
      else
        var m1 := Store(m, id, c.(header := c.header.(joinWaker := false),
                                  history := c.history.(registered := None)));
        var m2 :- SetJoinWaker(m1, id, w);
        Ok((m2, Pending))
    else
      var m1 :- SetJoinWaker(m, id, w);
      Ok((m1, Pending))
  }

  /** `Drop for JoinHandle`, up to the release of its reference. */
  function DropJoin(m: Machine, id: TaskId): Result<Machine> {
    var c :- Load(m, id);
    if c.header == INITIAL_HEADER then
      Ok(WithHeader(m, id, INITIAL_HEADER.(joinInterest := false, refs := 1)).(joins := m.joins - {id}))
    else
      var _ :- Check(c.header.joinInterest, NoJoinInterest);
      var c' := if c.header.complete then Consume(c, false)
                else c.(header := c.header.(joinInterest := false));
      Ok(Store(m, id, c').(joins := m.joins - {id}, closing := m.closing + {id}))
  }

  // ----- steps -----

  /** `block_on` sets CURRENT, and wakes the main future once. */
  function Enter(m: Machine): Result<Machine> {
    var _ :- Check(!m.entered, NestedRuntime);
    Ok(m.(entered := true, shouldPoll := true))
  }

  /** `Drop for TaskQueue` takes the next Task and drops it without running it. */
  function DropQueued(m: Machine): Result<Machine>
    requires m.queue != []
  {
    DropReference(m.(queue := m.queue[1..]), m.queue[0])
  }

  datatype Op =
    | OpEnter
    | OpLeave
    | OpShouldPoll
    | OpShutdown
    | OpDropQueued
    | OpSpawn
    | OpBeginPoll
    | OpFinishPending
    | OpFinishReady(output: int)
    | OpDropTask
    | OpCloneWaker(waker: Waker)
    | OpDropWaker(task: TaskId)
    | OpWakeByVal(task: TaskId)
    | OpWakeByRef(waker: Waker)
    | OpPollJoin(task: TaskId, waker: Waker)
    | OpDropJoin(task: TaskId)
    | OpCloseJoin(task: TaskId)
    | OpRelease(task: TaskId)

  /** A waker the caller may use: an owned one, or the borrowed one of the task being polled. */
  predicate Usable(m: Machine, w: Waker) {
    w.TaskWaker? ==> w.task in m.wakers || m.current == Polling(w.task)
  }

  predicate HasDelivered(h: History) {
    exists i :: 0 <= i < |h.fates| && h.fates[i].Delivered?
  }

  /** The step is one that safe client code and `block_on` can take: it owns what it uses. */
  predicate Enabled(m: Machine, op: Op) {
    match op
    case OpEnter => !m.down
    case OpLeave => m.entered && m.current.NoTask?
    case OpShouldPoll => m.entered && m.current.NoTask?
    case OpShutdown => !m.entered && !m.down
    case OpDropQueued => m.down && m.queue != []
    case OpSpawn => true
    case OpBeginPoll => m.entered && m.current.NoTask? && m.queue != []
    case OpFinishPending => m.current.Polling?
    case OpFinishReady(_) => m.current.Polling?
    case OpDropTask => m.current.Finishing?
    case OpCloneWaker(w) => Usable(m, w)
    case OpDropWaker(id) => id in m.wakers
    case OpWakeByVal(id) => id in m.wakers
    case OpWakeByRef(w) => Usable(m, w)
    case OpPollJoin(id, w) => id in m.joins && Usable(m, w)
    case OpDropJoin(id) => id in m.joins
    case OpCloseJoin(id) => id in m.closing
    case OpRelease(id) => id in m.dropping
  }

  function Step(m: Machine, op: Op): Result<Machine>
    requires Enabled(m, op)
  {
    match op
    case OpEnter => Enter(m)
    case OpLeave => Ok(m.(entered := false))
    case OpShouldPoll => Ok(m.(shouldPoll := false))
    case OpShutdown => Ok(m.(down := true))
    case OpDropQueued => DropQueued(m)
    case OpSpawn => Spawn(m)
    case OpBeginPoll => BeginPoll(m)
    case OpFinishPending => FinishPending(m)
    case OpFinishReady(v) => FinishReady(m, v)
    case OpDropTask => DropTask(m)
    case OpCloneWaker(w) =>
      var m1 :- CloneWaker(m, w);
      Ok(if w.TaskWaker? then m1.(wakers := m1.wakers + multiset{w.task}) else m1)
    case OpDropWaker(id) => DropReference(m.(wakers := m.wakers - multiset{id}), id)
    case OpWakeByVal(id) => WakeByVal(m.(wakers := m.wakers - multiset{id}), id)
    case OpWakeByRef(w) => WakeByRef(m, w)
    case OpPollJoin(id, w) =>
      var r :- PollJoin(m, id, w);
      Ok(r.0)
    case OpDropJoin(id) => DropJoin(m, id)
    case OpCloseJoin(id) => DropReference(m.(closing := m.closing - {id}), id)
    case OpRelease(id) => DropReference(m.(dropping := m.dropping - multiset{id}), id)
  }

  const START := Machine([], [], NoTask, multiset{}, {}, {}, multiset{}, true, false, false)
}
