/**
 The executor loop (`runtime/src/runtime.rs`, `scheduler.rs`).

 What futures, destructors and the driver do is the environment: a `Turn` lists the calls made during
 one run of a Task and its result. `Execute` is the source's nested loop, followed for a given number of
 turns.
 */
module BlockOn {
  import opened Options
  import opened TaskState
  import opened TaskMachine
  import opened TaskSafety
  import opened TaskTheorems
  import opened Harness

  /**
   One run of a Task: the calls the future makes while it is polled and Ready(value) or Pending; the
   calls of destructors and foreign wakers while the task completes; and those of destructors after
   the Task was dropped, with which its cell may go.
   */
  datatype Turn = Turn(calls: seq<Op>, result: Poll, completing: seq<Op>, after: seq<Op>)

  /** One poll of the main future; the calls include those of its destructor once it is ready. */
  datatype Polled = Polled(calls: seq<Op>, result: Poll)

  /** A call that futures, drivers and destructors can make; the executor's own steps are not. */
  predicate ClientOp(op: Op) {
    !op.OpBeginPoll? && !op.OpFinishPending? && !op.OpFinishReady? && !op.OpDropTask? && !RuntimeOp(op)
  }

  /** A step of the runtime as a whole. */
  predicate RuntimeOp(op: Op) {
    op.OpEnter? || op.OpLeave? || op.OpShouldPoll? || op.OpShutdown? || op.OpDropQueued?
  }

  ghost predicate Good(r: Runtime)
    reads r, r.cells, r.States()
  {
    r.Valid() && Inv(r.View())
  }

  method ExecTask(r: Runtime, op: Op)
    requires Good(r) && !r.aborted && Proper(r.View(), op)
    requires op.OpSpawn? || op.OpDropTask?
    modifies r.repr
    ensures r.Valid() && fresh(r.repr - old(r.repr))
    ensures !r.aborted ==> Step(old(r.View()), op) == Ok(r.View()) && Inv(r.View())
  {
    StepSafe(r.View(), op);
    match op {
      case OpSpawn => var _ := r.Spawn();
      case OpDropTask => r.DropTask(r.current.task);
    }
  }

  method ExecRuntime(r: Runtime, op: Op)
    requires Good(r) && !r.aborted && Proper(r.View(), op) && RuntimeOp(op)
    modifies r.repr
    ensures r.Valid() && r.repr == old(r.repr) && !r.aborted
    ensures Step(old(r.View()), op) == Ok(r.View()) && Inv(r.View())
  {
    StepSafe(r.View(), op);
    match op {
      case OpEnter => r.Enter();
      case OpLeave => r.Leave();
      case OpShouldPoll => var _ := r.ShouldPoll();
      case OpShutdown => r.Shutdown();
      case OpDropQueued => r.DropQueued();
    }
  }

  method ExecPoll(r: Runtime, op: Op)
    requires Good(r) && !r.aborted && Proper(r.View(), op)
    requires op.OpBeginPoll? || op.OpFinishPending? || op.OpFinishReady?
    modifies r.repr
    ensures r.Valid() && fresh(r.repr - old(r.repr))
    ensures !r.aborted ==> Step(old(r.View()), op) == Ok(r.View()) && Inv(r.View())
  {
    StepSafe(r.View(), op);
    match op {
      case OpBeginPoll => var _ := r.BeginPoll();
      case OpFinishPending => r.FinishPending(r.current.task);
      case OpFinishReady(v) => r.FinishReady(r.current.task, v);
    }
  }

  method ExecWaker(r: Runtime, op: Op)
    requires Good(r) && !r.aborted && Proper(r.View(), op)
    requires op.OpCloneWaker? || op.OpDropWaker? || op.OpWakeByVal? || op.OpWakeByRef?
    modifies r.repr
    ensures r.Valid() && fresh(r.repr - old(r.repr))
    ensures !r.aborted ==> Step(old(r.View()), op) == Ok(r.View()) && Inv(r.View())
  {
    StepSafe(r.View(), op);
    match op {
      case OpCloneWaker(w) => r.CloneOwned(w);
      case OpDropWaker(id) => r.DropOwned(id);
      case OpWakeByVal(id) => r.WakeOwned(id);
      case OpWakeByRef(w) => r.WakeByRef(w);
    }
  }

  method ExecHandle(r: Runtime, op: Op)
    requires Good(r) && !r.aborted && Proper(r.View(), op)
    requires op.OpPollJoin? || op.OpDropJoin? || op.OpCloseJoin? || op.OpRelease?
    modifies r.repr
    ensures r.Valid() && fresh(r.repr - old(r.repr))
    ensures !r.aborted ==> Step(old(r.View()), op) == Ok(r.View()) && Inv(r.View())
  {
    StepSafe(r.View(), op);
    match op {
      case OpPollJoin(id, w) => var _ := r.PollJoin(id, w);
      case OpDropJoin(id) => r.DropJoin(id);
      case OpCloseJoin(id) => r.CloseJoin(id);
      case OpRelease(id) => r.Release(id);
    }
  }

  /** Executes one step of the machine on the heap. */
  method Exec(r: Runtime, op: Op)
    requires Good(r) && !r.aborted && Proper(r.View(), op)
    modifies r.repr
    ensures r.Valid() && fresh(r.repr - old(r.repr))
    ensures !r.aborted ==> Step(old(r.View()), op) == Ok(r.View()) && Inv(r.View())
  {
    if op.OpSpawn? || op.OpDropTask? {
      ExecTask(r, op);
    } else if RuntimeOp(op) {
      ExecRuntime(r, op);
    } else if !ClientOp(op) {
      ExecPoll(r, op);
    } else if op.OpCloneWaker? || op.OpDropWaker? || op.OpWakeByVal? || op.OpWakeByRef? {
      ExecWaker(r, op);
    } else {
      ExecHandle(r, op);
    }
  }

  // ----- one poll -----

  function ClientOps(calls: seq<Op>): seq<Op> {
    if calls == [] then []
    else (if ClientOp(calls[0]) then [calls[0]] else []) + ClientOps(calls[1..])
  }

  function FinishOp(result: Poll): Op {
    match result
    case Pending => OpFinishPending
    case Ready(v) => OpFinishReady(v)
  }

  /** The Task goes out of scope. */
  function DropOps(t: Turn): seq<Op> {
    [OpDropTask] + ClientOps(t.after)
  }

  /** What is left of a run when the poll returns. */
  function EndOps(t: Turn): seq<Op> {
    [FinishOp(t.result)] + (ClientOps(t.completing) + DropOps(t))
  }

  /** The machine steps of one `t.run()`. */
  function TurnOps(t: Turn): seq<Op> {
    [OpBeginPoll] + (ClientOps(t.calls) + EndOps(t))
  }

  /** What a call leaves as it was: the Task being run, whether CURRENT is set, and the queue's front. */
  predicate SameRun(m: Machine, m': Machine) {
    && m'.current == m.current && m'.entered == m.entered && m'.down == m.down
    && |m.queue| <= |m'.queue| && m'.queue[..|m.queue|] == m.queue
    && (!m.entered ==> m'.queue == m.queue)
  }

  lemma ClientKeepsRun(m: Machine, op: Op)
    requires ClientOp(op) && Proper(m, op) && Step(m, op).Ok?
    ensures SameRun(m, Step(m, op).value)
  {
    hide DropReference, Spawn, CloneWaker, DropJoin, PollJoin, WakeByVal, WakeByRef;
    match op {
      case OpPollJoin(id, w) => PollKeepsRun(m, id, w);
      case OpWakeByVal(id) => WakeByValKeepsRun(m.(wakers := m.wakers - multiset{id}), id);
      case OpWakeByRef(w) => WakeKeepsRun(m, w);
      case _ => OtherKeepsRun(m, op);
    }
  }

  lemma OtherKeepsRun(m: Machine, op: Op)
    requires ClientOp(op) && Proper(m, op) && Step(m, op).Ok?
    requires !op.OpPollJoin? && !op.OpWakeByVal? && !op.OpWakeByRef?
    ensures SameRun(m, Step(m, op).value)
  {
    hide DropReference, CloneWaker, DropJoin;
    match op {
      case OpSpawn =>
      case OpCloneWaker(w) => CloneKeepsRun(m, w);
      case OpDropWaker(id) => DropKeepsRun(m.(wakers := m.wakers - multiset{id}), id);
      case OpDropJoin(id) => HandleKeepsRun(m, id);
      case OpCloseJoin(id) => DropKeepsRun(m.(closing := m.closing - {id}), id);
      case OpRelease(id) => DropKeepsRun(m.(dropping := m.dropping - multiset{id}), id);
    }
  }

  lemma CloneKeepsRun(m: Machine, w: Waker)
    requires CloneWaker(m, w).Ok?
    ensures SameRun(m, CloneWaker(m, w).value)
  {}

  lemma DropKeepsRun(m: Machine, id: TaskId)
    requires DropReference(m, id).Ok?
    ensures SameRun(m, DropReference(m, id).value)
  {}

  lemma HandleKeepsRun(m: Machine, id: TaskId)
    requires DropJoin(m, id).Ok?
    ensures SameRun(m, DropJoin(m, id).value)
  {}

  lemma PollKeepsRun(m: Machine, id: TaskId, w: Waker)
    requires PollJoin(m, id, w).Ok?
    ensures SameRun(m, PollJoin(m, id, w).value.0)
  {
    var c := m.slots[id].cell;
    if !c.header.complete && !(c.header.joinWaker && c.joinWaker.value == w) {
      var m1 := if c.header.joinWaker
                then Store(m, id, c.(header := c.header.(joinWaker := false),
                                     history := c.history.(registered := None)))
                else m;
      hide SetJoinWaker;
      RegisterKeepsRun(m1, id, w);
    }
  }

  lemma RegisterKeepsRun(m: Machine, id: TaskId, w: Waker)
    requires TaskMachine.SetJoinWaker(m, id, w).Ok?
    ensures SameRun(m, TaskMachine.SetJoinWaker(m, id, w).value)
  {}

  lemma WakeByValKeepsRun(m: Machine, id: TaskId)
    requires WakeByVal(m, id).Ok?
    ensures SameRun(m, WakeByVal(m, id).value)
  {}

  lemma WakeKeepsRun(m: Machine, w: Waker)
    requires WakeByRef(m, w).Ok?
    ensures SameRun(m, WakeByRef(m, w).value)
  {}

  /** Executing one more step, or skipping it, extends a run by that step. */
  lemma RunSnoc(m: Machine, ops: seq<Op>, op: Op)
    requires Run(m, ops).Ok?
    ensures Run(m, ops + [op]) ==
            var m' := Run(m, ops).value; if Proper(m', op) then Step(m', op) else Ok(m')
  {
    RunConcat(m, ops, [op], 0);
    var m' := Run(m, ops).value;
    assert [op][1..] == [];
    if Proper(m', op) && Step(m', op).Ok? {
      assert Run(Step(m', op).value, []) == Ok(Step(m', op).value);
    }
  }

  lemma RunJoin(m: Machine, a: seq<Op>, b: seq<Op>)
    requires Run(m, a).Ok?
    ensures Run(m, a + b) == Run(Run(m, a).value, b)
  {
    RunConcat(m, a, b, 0);
  }

  /** Whether waking a task would not panic, read off its state word. */
  predicate CanWake(r: Runtime, id: TaskId)
    requires Good(r) && IsLive(r.View(), id)
    reads r, r.cells, r.States()
    ensures CanWake(r, id) == MayWake(r.View(), id)
  {
    var word := r.cells[id].state.word;
    r.entered || word & RUNNING == RUNNING || word & COMPLETE == COMPLETE || word & NOTIFIED == NOTIFIED
  }

  /** Whether client code has a waker at hand. */
  predicate CanUse(r: Runtime, w: Waker)
    reads r, r.cells, r.States()
    ensures CanUse(r, w) == Usable(r.View(), w)
  {
    !w.TaskWaker? || w.task in r.wakers || r.current == Polling(w.task)
  }

  predicate CanPoll(r: Runtime, id: TaskId, w: Waker)
    requires Good(r)
    reads r, r.cells, r.States()
    ensures CanPoll(r, id, w) == Proper(r.View(), OpPollJoin(id, w))
  {
    hide Inv;
    id in r.joins && CanUse(r, w)
    && (PollableCell(r.View(), id);
        !r.cells[id].stage.Consumed?)
  }

  /** The stage tells whether the output was delivered. */
  lemma PollableCell(m: Machine, id: TaskId)
    requires Inv(m) && id in m.joins
    ensures IsLive(m, id) && (MayPoll(m, id) <==> !m.slots[id].cell.stage.Consumed?)
  {
    HeldIsLive(m, id);
    assert CellOk(m.slots[id].cell, true);
  }

  /** Whether client code is in a position to make a call. */
  predicate CanCall(r: Runtime, op: Op)
    requires Good(r) && ClientOp(op)
    reads r, r.cells, r.States()
    ensures CanCall(r, op) == Proper(r.View(), op)
  {
    hide Inv;
    match op
    case OpSpawn => r.entered
    case OpCloneWaker(w) => CanUse(r, w)
    case OpDropWaker(id) => id in r.wakers
    case OpWakeByVal(id) => id in r.wakers && (HeldIsLive(r.View(), id); CanWake(r, id))
    case OpWakeByRef(w) => CanUse(r, w) && (w.TaskWaker? ==> (HeldIsLive(r.View(), w.task); CanWake(r, w.task)))
    case OpPollJoin(id, w) => CanPoll(r, id, w)
    case OpDropJoin(id) => id in r.joins
    case OpCloseJoin(id) => id in r.closing
    case OpRelease(id) => id in r.dropping
  }

  /** Makes a call, unless the client is in no position to make it. */
  method TryCall(r: Runtime, op: Op)
    requires Good(r) && !r.aborted && ClientOp(op)
    modifies r.repr
    ensures r.Valid() && fresh(r.repr - old(r.repr))
    ensures !r.aborted ==> Good(r) && SameRun(old(r.View()), r.View())
    ensures !r.aborted ==>
      Ok(r.View()) == if Proper(old(r.View()), op) then Step(old(r.View()), op) else Ok(old(r.View()))
  {
    if CanCall(r, op) {
      StepSafe(r.View(), op);
      ClientKeepsRun(r.View(), op);
      Exec(r, op);
    }
  }

  /** The calls of one poll, in order; those the future is in no position to make do not happen. */
  method Calls(r: Runtime, calls: seq<Op>)
    requires Good(r) && !r.aborted
    modifies r.repr
    ensures r.Valid() && fresh(r.repr - old(r.repr))
    ensures !r.aborted ==> Good(r) && SameRun(old(r.View()), r.View())
    ensures !r.aborted ==> Run(old(r.View()), ClientOps(calls)) == Ok(r.View())
  {
    ghost var m0 := r.View();
    ghost var done: seq<Op> := [];
    for i := 0 to |calls|
      invariant Good(r) && !r.aborted && fresh(r.repr - old(r.repr))
      invariant SameRun(m0, r.View())
      invariant Run(m0, done) == Ok(r.View())
      invariant done + ClientOps(calls[i..]) == ClientOps(calls)
    {
      var op := calls[i];
      ClientOpsStep(calls, i, done);
      if ClientOp(op) {
        RunSnoc(m0, done, op);
        TryCall(r, op);
        if r.aborted { return; }
        done := done + [op];
      }
    }
    assert done + [] == done;
  }

  lemma ClientOpsStep(calls: seq<Op>, i: nat, done: seq<Op>)
    requires i < |calls|
    ensures done + ClientOps(calls[i..])
         == (if ClientOp(calls[i]) then done + [calls[i]] else done) + ClientOps(calls[i + 1..])
  {
    assert calls[i..][1..] == calls[i + 1..];
  }

  /** The Task goes out of scope, and perhaps its cell with it. */
  method DropAfter(r: Runtime, t: Turn)
    requires Good(r) && !r.aborted && r.View().current.Finishing?
    modifies r.repr
    ensures r.Valid() && fresh(r.repr - old(r.repr))
    ensures !r.aborted ==> Good(r) && r.View().current.NoTask? && r.entered == old(r.entered)
    ensures !r.aborted ==> Run(old(r.View()), DropOps(t)) == Ok(r.View())
  {
    hide Inv, Step, Run, ClientOps;
    ghost var m := r.View();
    DropTaskClears(m);
    Exec(r, OpDropTask);
    if r.aborted { return; }
    ghost var m1 := r.View();
    Calls(r, t.after);
    if r.aborted { return; }
    OneStep(m, OpDropTask, m1, ClientOps(t.after), 0);
  }

  /** The end of a run: the poll returns and the Task goes out of scope. */
  method Finish(r: Runtime, t: Turn)
    requires Good(r) && !r.aborted && r.View().current.Polling?
    modifies r.repr
    ensures r.Valid() && fresh(r.repr - old(r.repr))
    ensures !r.aborted ==> Good(r) && r.View().current.NoTask? && r.entered == old(r.entered)
    ensures !r.aborted ==> Run(old(r.View()), EndOps(t)) == Ok(r.View())
  {
    hide Inv, Step, Run, ClientOps, DropOps;
    ghost var m := r.View();
    FinishKeepsTask(m, t.result);
    Exec(r, FinishOp(t.result));
    if r.aborted { return; }
    ghost var m1 := r.View();
    Calls(r, t.completing);
    if r.aborted { return; }
    ghost var m2 := r.View();
    DropAfter(r, t);
    if r.aborted { return; }
    RunJoin(m1, ClientOps(t.completing), DropOps(t));
    OneStep(m, FinishOp(t.result), m1, ClientOps(t.completing) + DropOps(t), 0);
  }

  lemma FinishKeepsTask(m: Machine, result: Poll)
    requires Inv(m) && m.current.Polling?
    ensures Step(m, FinishOp(result)).Ok? && Step(m, FinishOp(result)).value.current.Finishing?
    ensures Step(m, FinishOp(result)).value.entered == m.entered
  {
    StepSafe(m, FinishOp(result));
  }

  lemma DropTaskClears(m: Machine)
    requires Inv(m) && m.current.Finishing?
    ensures Step(m, OpDropTask).Ok? && Step(m, OpDropTask).value.current.NoTask?
    ensures Step(m, OpDropTask).value.entered == m.entered
  {
    StepSafe(m, OpDropTask);
  }

  /** Inside `block_on`, between two runs. */
  ghost predicate Idling(m: Machine) {
    Inv(m) && m.entered && m.current.NoTask?
  }

  /** The executor is between two runs. */
  ghost predicate Between(r: Runtime)
    reads r, r.cells, r.States()
  {
    r.Valid() && !r.aborted && Idling(r.View())
  }

  /** `t.run()` for the Task at the front of the queue. */
  method RunTask(r: Runtime, t: Turn)
    requires Between(r) && r.queue != []
    modifies r.repr
    ensures r.Valid() && fresh(r.repr - old(r.repr))
    ensures !r.aborted ==> Between(r)
    ensures !r.aborted ==> Run(old(r.View()), TurnOps(t)) == Ok(r.View())
  {
    ghost var m0 := r.View();
    BeginPollTakes(m0);
    Exec(r, OpBeginPoll);
    if r.aborted { return; }
    ghost var m1 := r.View();
    Calls(r, t.calls);
    if r.aborted { return; }
    Finish(r, t);
    if r.aborted { return; }
    RunJoin(m1, ClientOps(t.calls), EndOps(t));
    OneStep(m0, OpBeginPoll, m1, ClientOps(t.calls) + EndOps(t), 0);
  }

  lemma BeginPollTakes(m: Machine)
    requires Inv(m) && m.entered && m.current.NoTask? && m.queue != []
    ensures Step(m, OpBeginPoll).Ok? && Step(m, OpBeginPoll).value.current == Polling(m.queue[0])
    ensures Step(m, OpBeginPoll).value.entered
  {
    StepSafe(m, OpBeginPoll);
  }

  // ----- one batch -----

  /** The machine steps of `n` consecutive runs. */
  function BatchOps(turns: nat -> Turn, n: nat): seq<Op> {
    if n == 0 then [] else BatchOps(turns, n - 1) + TurnOps(turns(n - 1))
  }

  /** The i-th run of a batch finds a Task. */
  ghost predicate Finds(m: Machine, turns: nat -> Turn, i: nat) {
    Run(m, BatchOps(turns, i)).Ok? && Run(m, BatchOps(turns, i)).value.queue != []
  }

  /**
   Runs queued tasks. However often tasks put themselves or others back, a batch that starts with
   `n` tasks ends after at most `2n + 1` runs, having emptied the queue or used them all.
   */
  method Batch(r: Runtime, turns: nat -> Turn) returns (runs: nat)
    requires Between(r)
    modifies r.repr
    ensures r.Valid() && fresh(r.repr - old(r.repr))
    ensures runs <= 2 * |old(r.queue)| + 1
    ensures !r.aborted ==>
      && Between(r)
      && (r.queue == [] || runs == 2 * |old(r.queue)| + 1)
      && Run(old(r.View()), BatchOps(turns, runs)) == Ok(r.View())
      && forall i: nat :: i < runs ==> Finds(old(r.View()), turns, i)
  {
    hide Inv, BatchOps, TurnOps, Run;
    ghost var m0 := r.View();
    BatchNone(m0, turns);
    var maxRound := |r.queue| * 2;
    runs := 0;
    while r.queue != []
      invariant Between(r) && fresh(r.repr - old(r.repr))
      invariant runs + maxRound == 2 * |old(r.queue)| && maxRound >= 0
      invariant Run(m0, BatchOps(turns, runs)) == Ok(r.View())
      invariant forall i: nat :: i < runs ==> Finds(m0, turns, i)
      decreases maxRound
    {
      assert Finds(m0, turns, runs);
      RunTask(r, turns(runs));
      BatchNext(m0, turns, runs);
      runs := runs + 1;
      if r.aborted { return; }
      if maxRound == 0 {
        break;     // maybe there is a looping task
      } else {
        maxRound := maxRound - 1;
      }
    }
  }

  lemma BatchNone(m: Machine, turns: nat -> Turn)
    ensures Run(m, BatchOps(turns, 0)) == Ok(m)
  {}

  lemma BatchNext(m: Machine, turns: nat -> Turn, n: nat)
    requires Run(m, BatchOps(turns, n)).Ok?
    ensures Run(m, BatchOps(turns, n + 1)) == Run(Run(m, BatchOps(turns, n)).value, TurnOps(turns(n)))
  {
    RunJoin(m, BatchOps(turns, n), TurnOps(turns(n)));
  }

  // ----- what the executor does, as a trace -----

  /**
   A batch of runs, a poll of the main future, or the wakes of a driver that processes the events that
   have come, without waiting or waiting for some.
   */
  datatype Segment =
    | Tasks(turns: nat -> Turn, runs: nat)
    | Main(polled: Polled)
    | Submit(io: seq<Op>)
    | Park(io: seq<Op>)

  function SegmentOps(s: Segment): seq<Op> {
    match s
    case Tasks(turns, runs) => BatchOps(turns, runs)
    case Main(polled) => [OpShouldPoll] + ClientOps(polled.calls)
    case Submit(io) => ClientOps(io)
    case Park(io) => ClientOps(io)
  }

  function TraceOps(trace: seq<Segment>): seq<Op> {
    if trace == [] then [] else TraceOps(trace[..|trace| - 1]) + SegmentOps(trace[|trace| - 1])
  }

  /** The state in which `block_on` lets the driver wait. */
  ghost predicate Parkable(m: Machine) {
    Idling(m) && m.queue == [] && !m.shouldPoll
  }

  /**
   The main future is polled only when woken; the driver is called only when it is not, and waits
   exactly when there is no task to run either.
   */
  ghost predicate SegmentOk(m: Machine, s: Segment) {
    match s
    case Tasks(turns, runs) =>
      && runs <= 2 * |m.queue| + 1 && (forall i: nat :: i < runs ==> Finds(m, turns, i))
      && Run(m, SegmentOps(s)).Ok?
      && (Run(m, SegmentOps(s)).value.queue == [] || runs == 2 * |m.queue| + 1)
    case Main(_) => m.shouldPoll
    case Submit(_) => m.queue != [] && !m.shouldPoll
    case Park(_) => Parkable(m)
  }

  /** The next thing to do is a batch: nothing was done yet, or the driver has just had its turn. */
  predicate AtBatch(trace: seq<Segment>) {
    trace == [] || trace[|trace| - 1].Submit? || trace[|trace| - 1].Park?
  }

  /** The last thing done was a batch, or a poll of the main future that is not ready. */
  predicate AtMain(trace: seq<Segment>) {
    trace != [] && (trace[|trace| - 1].Tasks? || trace[|trace| - 1].Main?) && Outcome(trace).Pending?
  }

  /** What the main future has returned. */
  function Outcome(trace: seq<Segment>): Poll {
    if trace != [] && trace[|trace| - 1].Main? then trace[|trace| - 1].polled.result else Pending
  }

  /** Batches come after the driver, and polls of the main future and calls of the driver after batches. */
  predicate MayFollow(trace: seq<Segment>, s: Segment) {
    if s.Tasks? then AtBatch(trace) else AtMain(trace)
  }

  /**
   The trace leads from `m0` to `m`; each of its segments begins in a state and after a segment where
   it may. Between them these leave no choice: what comes next follows from the state and the last
   segment.
   */
  ghost predicate Traced(m0: Machine, trace: seq<Segment>, m: Machine) {
    && Run(m0, TraceOps(trace)) == Ok(m)
    && forall i :: 0 <= i < |trace| ==>
         && MayFollow(trace[..i], trace[i])
         && Run(m0, TraceOps(trace[..i])).Ok? && SegmentOk(Run(m0, TraceOps(trace[..i])).value, trace[i])
  }

  lemma Extend(m0: Machine, trace: seq<Segment>, m: Machine, s: Segment, m': Machine)
    requires Traced(m0, trace, m) && MayFollow(trace, s) && SegmentOk(m, s) && Run(m, SegmentOps(s)) == Ok(m')
    ensures Traced(m0, trace + [s], m')
  {
    var longer := trace + [s];
    assert longer[..|trace|] == trace;
    RunJoin(m0, TraceOps(trace), SegmentOps(s));
    forall i | 0 <= i < |longer|
      ensures MayFollow(longer[..i], longer[i])
      ensures Run(m0, TraceOps(longer[..i])).Ok? && SegmentOk(Run(m0, TraceOps(longer[..i])).value, longer[i])
    {
      if i < |trace| { assert longer[..i] == trace[..i]; }
    }
  }

  /** A batch or a poll of the main future. */
  predicate Counts(s: Segment) {
    s.Tasks? || s.Main?
  }

  /** How many batches and polls of the main future a trace has. */
  function Turns(trace: seq<Segment>): nat {
    if trace == [] then 0
    else Turns(trace[..|trace| - 1]) + (if Counts(trace[|trace| - 1]) then 1 else 0)
  }

  lemma TurnsSnoc(trace: seq<Segment>, s: Segment)
    ensures Turns(trace + [s]) == Turns(trace) + (if Counts(s) then 1 else 0)
  {
    assert (trace + [s])[..|trace|] == trace;
  }

  /** Wherever a run of the executor parks, no unfinished task is waiting to be polled. */
  lemma ParkedIdle(m0: Machine, trace: seq<Segment>, m: Machine, i: nat, id: TaskId)
    requires Traced(m0, trace, m) && i < |trace| && trace[i].Park?
    ensures Run(m0, TraceOps(trace[..i])).Ok?
    ensures var parked := Run(m0, TraceOps(trace[..i])).value;
            !parked.shouldPoll && (IsLive(parked, id) && parked.slots[id].cell.header.notified ==>
              Completed(parked.slots[id]))
  {
    var parked := Run(m0, TraceOps(trace[..i])).value;
    assert SegmentOk(parked, trace[i]);
    if IsLive(parked, id) { NoWorkAtPark(parked, id); }
  }

  // ----- a woken main future is polled -----

  /** Only `should_poll` takes the flag of the main future. */
  lemma {:induction false} StaysWoken(m: Machine, ops: seq<Op>)
    requires m.shouldPoll && Run(m, ops).Ok? && OpShouldPoll !in ops
    ensures Run(m, ops).value.shouldPoll
    decreases |ops|
  {
    if ops != [] {
      if Proper(m, ops[0]) {
        StepStaysWoken(m, ops[0]);
        StaysWoken(Step(m, ops[0]).value, ops[1..]);
      } else {
        StaysWoken(m, ops[1..]);
      }
    }
  }

  lemma StepStaysWoken(m: Machine, op: Op)
    requires m.shouldPoll && Enabled(m, op) && Step(m, op).Ok? && op != OpShouldPoll
    ensures Step(m, op).value.shouldPoll
  {
    hide DropReference, DropJoin, PollJoin, WakeByVal;
    match op {
      case OpDropQueued => DropKeepsFlag(m.(queue := m.queue[1..]), m.queue[0]);
      case OpDropTask => DropKeepsFlag(m.(current := NoTask), m.current.task);
      case OpDropWaker(id) => DropKeepsFlag(m.(wakers := m.wakers - multiset{id}), id);
      case OpCloseJoin(id) => DropKeepsFlag(m.(closing := m.closing - {id}), id);
      case OpRelease(id) => DropKeepsFlag(m.(dropping := m.dropping - multiset{id}), id);
      case OpWakeByVal(id) => WakeByValKeepsFlag(m.(wakers := m.wakers - multiset{id}), id);
      case OpPollJoin(id, w) => PollKeepsFlag(m, id, w);
      case OpDropJoin(id) => HandleKeepsFlag(m, id);
      case _ =>
    }
  }

  lemma DropKeepsFlag(m: Machine, id: TaskId)
    requires DropReference(m, id).Ok?
    ensures DropReference(m, id).value.shouldPoll == m.shouldPoll
  {}

  lemma WakeByValKeepsFlag(m: Machine, id: TaskId)
    requires WakeByVal(m, id).Ok?
    ensures WakeByVal(m, id).value.shouldPoll == m.shouldPoll
  {}

  lemma PollKeepsFlag(m: Machine, id: TaskId, w: Waker)
    requires PollJoin(m, id, w).Ok?
    ensures PollJoin(m, id, w).value.0.shouldPoll == m.shouldPoll
  {}

  lemma HandleKeepsFlag(m: Machine, id: TaskId)
    requires DropJoin(m, id).Ok?
    ensures DropJoin(m, id).value.shouldPoll == m.shouldPoll
  {}

  lemma {:induction false} ClientOpsAre(calls: seq<Op>)
    ensures forall op :: op in ClientOps(calls) ==> ClientOp(op) && op in calls
    ensures forall op :: op in calls && ClientOp(op) ==> op in ClientOps(calls)
  {
    if calls != [] {
      ClientOpsAre(calls[1..]);
      assert calls == [calls[0]] + calls[1..];
    }
  }

  lemma {:induction false} BatchTakesNoFlag(turns: nat -> Turn, n: nat)
    ensures OpShouldPoll !in BatchOps(turns, n)
  {
    if n > 0 {
      BatchTakesNoFlag(turns, n - 1);
      var t := turns(n - 1);
      ClientOpsAre(t.calls);
      ClientOpsAre(t.completing);
      ClientOpsAre(t.after);
    }
  }

  /**
   Whenever the main future is woken, and at first, it is polled next, or after a single batch; and if
   the driver has woken it, after the batch that follows.
   */
  lemma WokenIsPolled(m0: Machine, trace: seq<Segment>, m: Machine, i: nat)
    requires Traced(m0, trace, m) && i < |trace|
    requires Run(m0, TraceOps(trace[..i])).Ok? && Run(m0, TraceOps(trace[..i])).value.shouldPoll
    ensures trace[i].Main? || (trace[i].Tasks? && (i + 1 < |trace| ==> trace[i + 1].Main?))
  {
    var mi := Run(m0, TraceOps(trace[..i])).value;
    hide Run, Traced, TraceOps, SegmentOps, Inv;
    TracedAt(m0, trace, m, i);
    if trace[i].Tasks? && i + 1 < |trace| {
      TraceNext(m0, trace, i);
      BatchStaysWoken(mi, trace[i]);
      TracedAt(m0, trace, m, i + 1);
      assert trace[..i + 1][i] == trace[i];
    }
  }

  lemma TracedAt(m0: Machine, trace: seq<Segment>, m: Machine, i: nat)
    requires Traced(m0, trace, m) && i < |trace|
    ensures MayFollow(trace[..i], trace[i]) && Run(m0, TraceOps(trace[..i])).Ok?
    ensures SegmentOk(Run(m0, TraceOps(trace[..i])).value, trace[i])
  {}

  lemma BatchStaysWoken(m: Machine, s: Segment)
    requires m.shouldPoll && s.Tasks? && Run(m, SegmentOps(s)).Ok?
    ensures Run(m, SegmentOps(s)).value.shouldPoll
  {
    BatchTakesNoFlag(s.turns, s.runs);
    StaysWoken(m, SegmentOps(s));
  }

  lemma TraceNext(m0: Machine, trace: seq<Segment>, i: nat)
    requires i < |trace| && Run(m0, TraceOps(trace[..i])).Ok?
    ensures Run(m0, TraceOps(trace[..i + 1])) == Run(Run(m0, TraceOps(trace[..i])).value, SegmentOps(trace[i]))
  {
    assert trace[..i + 1][..i] == trace[..i];
    RunJoin(m0, TraceOps(trace[..i]), SegmentOps(trace[i]));
  }

  /** `block_on` polls its future even if nobody wakes it: once, after the first batch. */
  lemma FirstPoll(start: Machine, trace: seq<Segment>, m: Machine)
    requires Enter(start).Ok? && Traced(Enter(start).value, trace, m) && |trace| >= 2
    ensures trace[0].Tasks? && trace[1].Main?
  {
    assert trace[..0] == [];
    assert MayFollow(trace[..0], trace[0]);
    WokenIsPolled(Enter(start).value, trace, m, 0);
  }

  /** The main future is not woken after a poll exactly if it has not woken itself during it. */
  lemma WokenAgain(m: Machine, polled: Polled)
    requires Inv(m) && m.entered && m.current.NoTask? && m.shouldPoll
    ensures Run(m, SegmentOps(Main(polled))).Ok?
    ensures Run(m, SegmentOps(Main(polled))).value.shouldPoll <==> OpWakeByRef(MainWaker) in polled.calls
  {
    StepSafe(m, OpShouldPoll);
    var m1 := Step(m, OpShouldPoll).value;
    RunSafe(m1, ClientOps(polled.calls));
    OneStep(m, OpShouldPoll, m1, ClientOps(polled.calls), 0);
    ClientOpsAre(polled.calls);
    FlagAfter(m1, ClientOps(polled.calls));
  }

  /** Calls set the flag of the main future exactly if one of them wakes it. */
  lemma {:induction false} FlagAfter(m: Machine, ops: seq<Op>)
    requires Run(m, ops).Ok? && forall op :: op in ops ==> ClientOp(op)
    ensures Run(m, ops).value.shouldPoll <==> m.shouldPoll || OpWakeByRef(MainWaker) in ops
    decreases |ops|
  {
    if ops != [] {
      assert ops == [ops[0]] + ops[1..];
      if Proper(m, ops[0]) {
        CallSetsFlag(m, ops[0]);
        FlagAfter(Step(m, ops[0]).value, ops[1..]);
      } else {
        FlagAfter(m, ops[1..]);
      }
    }
  }

  lemma CallSetsFlag(m: Machine, op: Op)
    requires ClientOp(op) && Proper(m, op) && Step(m, op).Ok?
    ensures Step(m, op).value.shouldPoll <==> m.shouldPoll || op == OpWakeByRef(MainWaker)
  {
    hide DropReference, DropJoin, PollJoin, WakeByVal;
    match op {
      case OpDropWaker(id) => DropKeepsFlag(m.(wakers := m.wakers - multiset{id}), id);
      case OpCloseJoin(id) => DropKeepsFlag(m.(closing := m.closing - {id}), id);
      case OpRelease(id) => DropKeepsFlag(m.(dropping := m.dropping - multiset{id}), id);
      case OpWakeByVal(id) => WakeByValKeepsFlag(m.(wakers := m.wakers - multiset{id}), id);
      case OpPollJoin(id, w) => PollKeepsFlag(m, id, w);
      case OpDropJoin(id) => HandleKeepsFlag(m, id);
      case _ =>
    }
  }

  // ----- the executor -----

  /**
   What the futures and the driver do: `tasks(n)` gives the runs of the batch if the n-th thing the
   executor does is a batch, `mains(n)` a poll of the main future, `io(n)` the driver's wakes.
   */
  datatype World = World(tasks: nat -> (nat -> Turn), mains: nat -> Polled, io: nat -> seq<Op>)

  ghost predicate Drawn(world: World, n: nat, s: Segment) {
    match s
    case Tasks(turns, _) => turns == world.tasks(n)
    case Main(polled) => polled == world.mains(n)
    case Submit(io) => io == world.io(n)
    case Park(io) => io == world.io(n)
  }

  /** The executor's way from `m0` to `m` in this world. */
  ghost predicate Follows(world: World, m0: Machine, trace: seq<Segment>, m: Machine) {
    Traced(m0, trace, m) && forall i: nat :: i < |trace| ==> Drawn(world, i, trace[i])
  }

  lemma FollowOn(world: World, m0: Machine, trace: seq<Segment>, m: Machine, s: Segment, m': Machine)
    requires Follows(world, m0, trace, m) && Drawn(world, |trace|, s)
    requires MayFollow(trace, s) && SegmentOk(m, s) && Run(m, SegmentOps(s)) == Ok(m')
    ensures Follows(world, m0, trace + [s], m') && Turns(trace + [s]) == Turns(trace) + (if Counts(s) then 1 else 0)
  {
    hide Traced, Turns, SegmentOk, Drawn;
    Extend(m0, trace, m, s, m');
    TurnsSnoc(trace, s);
  }

  method BatchOnce(r: Runtime, world: World, n: nat, ghost m0: Machine, ghost trace: seq<Segment>)
    returns (ghost trace': seq<Segment>)
    requires Between(r) && Follows(world, m0, trace, r.View()) && n == |trace| && AtBatch(trace)
    modifies r.repr
    ensures r.Valid() && fresh(r.repr - old(r.repr))
    ensures !r.aborted ==>
      && Between(r) && Follows(world, m0, trace', r.View()) && |trace'| == n + 1 && AtMain(trace')
      && Turns(trace') == Turns(trace) + 1
  {
    hide Inv, Follows, Turns, BatchOps;
    ghost var m := r.View();
    var runs := Batch(r, world.tasks(n));
    trace' := trace + [Tasks(world.tasks(n), runs)];
    if r.aborted { return; }
    FollowOn(world, m0, trace, m, Tasks(world.tasks(n), runs), r.View());
  }

  /** One poll of the main future, after `should_poll` has taken its flag. */
  method PollOnce(r: Runtime, world: World, n: nat, ghost m0: Machine, ghost trace: seq<Segment>)
    returns (ghost trace': seq<Segment>)
    requires Between(r) && r.shouldPoll && Follows(world, m0, trace, r.View()) && n == |trace| && AtMain(trace)
    modifies r.repr
    ensures r.Valid() && fresh(r.repr - old(r.repr)) && trace' == trace + [Main(world.mains(n))]
    ensures !r.aborted ==>
      Between(r) && Follows(world, m0, trace', r.View()) && Turns(trace') == Turns(trace) + 1
  {
    hide Inv;
    ghost var m := r.View();
    var polled := world.mains(n);
    trace' := trace + [Main(polled)];
    Exec(r, OpShouldPoll);
    if r.aborted { return; }
    ghost var m1 := r.View();
    Calls(r, polled.calls);
    if r.aborted { return; }
    OneStep(m, OpShouldPoll, m1, ClientOps(polled.calls), 0);
    FollowOn(world, m0, trace, m, Main(polled), r.View());
  }

  /** Polls the main future for as long as it is woken, at most `turns` times. */
  method PollMain(r: Runtime, world: World, at: nat, turns: nat, ghost m0: Machine, ghost trace: seq<Segment>)
    returns (result: Poll, n: nat, ghost trace': seq<Segment>)
    requires Between(r) && Follows(world, m0, trace, r.View()) && at == |trace| && AtMain(trace)
    modifies r.repr
    ensures r.Valid() && fresh(r.repr - old(r.repr)) && at <= n <= at + turns
    ensures !r.aborted ==>
      && Between(r) && Follows(world, m0, trace', r.View()) && n == |trace'|
      && Turns(trace') == Turns(trace) + (n - at)
      && result == Outcome(trace') && (result.Pending? ==> AtMain(trace'))
      && (result.Ready? || !r.shouldPoll || n == at + turns)
  {
    hide Inv, Follows, Turns;
    result, n, trace' := Pending, at, trace;
    while r.shouldPoll && n < at + turns
      invariant Between(r) && fresh(r.repr - old(r.repr)) && Follows(world, m0, trace', r.View())
      invariant at <= n <= at + turns && n == |trace'| && Turns(trace') == Turns(trace) + (n - at)
      invariant AtMain(trace') && result.Pending?
    {
      trace' := PollOnce(r, world, n, m0, trace');
      n := n + 1;
      if r.aborted { return; }
      result := world.mains(n - 1).result;
      if result.Ready? { return; }
    }
  }

  /** `submit`: the driver hands over its requests and processes the events that are there. */
  method SubmitOnce(r: Runtime, world: World, n: nat, ghost m0: Machine, ghost trace: seq<Segment>)
    returns (ghost trace': seq<Segment>)
    requires Between(r) && r.queue != [] && !r.shouldPoll
    requires Follows(world, m0, trace, r.View()) && n == |trace| && AtMain(trace)
    modifies r.repr
    ensures r.Valid() && fresh(r.repr - old(r.repr))
    ensures !r.aborted ==>
      && Between(r) && Follows(world, m0, trace', r.View()) && |trace'| == n + 1 && AtBatch(trace')
      && Turns(trace') == Turns(trace)
  {
    hide Inv;
    ghost var m := r.View();
    trace' := trace + [Segment.Submit(world.io(n))];
    Calls(r, world.io(n));
    if r.aborted { return; }
    FollowOn(world, m0, trace, m, Segment.Submit(world.io(n)), r.View());
  }

  /** `park`: the driver waits for events and processes them. */
  method ParkOnce(r: Runtime, world: World, n: nat, ghost m0: Machine, ghost trace: seq<Segment>)
    returns (ghost trace': seq<Segment>)
    requires Between(r) && Parkable(r.View())
    requires Follows(world, m0, trace, r.View()) && n == |trace| && AtMain(trace)
    modifies r.repr
    ensures r.Valid() && fresh(r.repr - old(r.repr))
    ensures !r.aborted ==>
      && Between(r) && Follows(world, m0, trace', r.View()) && |trace'| == n + 1 && AtBatch(trace')
      && Turns(trace') == Turns(trace)
  {
    hide Inv;
    ghost var m := r.View();
    trace' := trace + [Park(world.io(n))];
    Calls(r, world.io(n));
    if r.aborted { return; }
    FollowOn(world, m0, trace, m, Park(world.io(n)), r.View());
  }

  /**
   The inner loop: run batches and poll the main future until there is nothing left to execute, the
   main future is ready, or the `left` turns to be followed are used up.
   */
  method RunUntilIdle(r: Runtime, world: World, at: nat, turns: nat, ghost m0: Machine, ghost trace: seq<Segment>)
    returns (result: Poll, idle: bool, n: nat, left: nat, ghost trace': seq<Segment>)
    requires Between(r) && Follows(world, m0, trace, r.View()) && at == |trace| && AtBatch(trace)
    modifies r.repr
    ensures r.Valid() && fresh(r.repr - old(r.repr)) && left <= turns && (idle ==> left < turns)
    ensures !r.aborted ==>
      && Between(r) && Follows(world, m0, trace', r.View()) && n == |trace'|
      && Turns(trace') + left == Turns(trace) + turns && result == Outcome(trace')
    ensures !r.aborted && result.Pending? ==> if idle then Parkable(r.View()) && AtMain(trace') else left == 0
    ensures !r.aborted && result.Ready? ==> !idle
  {
    hide Inv, Follows, Turns;
    result, idle, n, left, trace' := Pending, false, at, turns, trace;
    while left > 0
      invariant Between(r) && fresh(r.repr - old(r.repr)) && Follows(world, m0, trace', r.View())
      invariant n == |trace'| && AtBatch(trace')
      invariant left <= turns && Turns(trace') + left == Turns(trace) + turns && result.Pending? && !idle
    {
      left := left - 1;
      // Consume tasks, with a bound on the rounds to prevent I/O starvation.
      trace' := BatchOnce(r, world, n, m0, trace');
      n := n + 1;
      if r.aborted { return; }
      // Check the main future.
      var before := n;
      result, n, trace' := PollMain(r, world, n, left, m0, trace');
      left := left - (n - before);
      if r.aborted || result.Ready? || r.shouldPoll { return; }
      if r.queue == [] {
        idle := true;        // no task to execute
        return;
      }
      trace' := SubmitOnce(r, world, n, m0, trace');
      n := n + 1;
      if r.aborted { return; }
    }
  }

  /**
   Follows `block_on` for `turns` batches and polls of the main future, or until that is ready. The
   trace records all that was executed, and there is only one way to go on.
   */
  method Execute(r: Runtime, world: World, turns: nat) returns (result: Poll, ghost trace: seq<Segment>)
    requires Good(r) && !r.aborted && !r.entered && !r.down
    modifies r.repr
    ensures r.Valid() && fresh(r.repr - old(r.repr))
    ensures !r.aborted ==> Good(r) && Enter(old(r.View())).Ok? && Idling(Enter(old(r.View())).value)
    ensures !r.aborted ==> result == Outcome(trace)
    ensures !r.aborted && result.Pending? ==>
      Follows(world, Enter(old(r.View())).value, trace, r.View()) && Turns(trace) == turns
    ensures !r.aborted && result.Ready? ==>
      Follows(world, Enter(old(r.View())).value, trace, r.View().(entered := true)) && !r.entered
  {
    hide Inv, Follows, Turns;
    result, trace := Pending, [];
    ghost var start := r.View();
    Exec(r, OpEnter);
    if r.aborted { return; }
    ghost var m0 := r.View();
    EnteredFree(start);
    TraceStart(world, m0);
    var n, left := 0, turns;
    while left > 0
      invariant Between(r) && fresh(r.repr - old(r.repr)) && Follows(world, m0, trace, r.View())
      invariant n == |trace| && (left > 0 ==> AtBatch(trace)) && Outcome(trace).Pending?
      invariant Turns(trace) + left == turns && result.Pending?
    {
      var idle;
      result, idle, n, left, trace := RunUntilIdle(r, world, n, left, m0, trace);
      if r.aborted { return; }
      if result.Ready? {
        Leave(r);
        return;
      }
      if idle {
        trace := ParkOnce(r, world, n, m0, trace);
        n := n + 1;
        if r.aborted { return; }
      }
    }
  }

  lemma TraceStart(world: World, m: Machine)
    ensures Follows(world, m, [], m) && Turns([]) == 0
  {}

  lemma EnteredFree(m: Machine)
    requires Inv(m) && !m.entered
    ensures m.current.NoTask?
  {}

  /** The future is ready, so `block_on` returns and CURRENT is no longer set. */
  method Leave(r: Runtime)
    requires Between(r)
    modifies r.repr
    ensures Good(r) && !r.aborted && !r.entered && r.repr == old(r.repr)
    ensures r.View().(entered := true) == old(r.View())
  {
    StepSafe(r.View(), OpLeave);
    r.Leave();
  }

  // ----- shutdown -----

  /** The queued Tasks dropped one by one, with the calls that destructors make after each. */
  function ShutdownOps(calls: nat -> seq<Op>, n: nat): seq<Op> {
    if n == 0 then [] else ShutdownOps(calls, n - 1) + ([OpDropQueued] + ClientOps(calls(n - 1)))
  }

  /**
   `Drop for TaskQueue`: every queued Task is dropped without being run. The destructors of futures
   freed with it drop their wakers and handles in between, or wake tasks where that does not panic.
   */
  method DropQueue(r: Runtime, calls: nat -> seq<Op>)
    requires Good(r) && !r.aborted && r.down
    modifies r.repr
    ensures r.Valid() && fresh(r.repr - old(r.repr))
    ensures !r.aborted ==>
      && Good(r) && r.queue == []
      && Run(old(r.View()), ShutdownOps(calls, |old(r.queue)|)) == Ok(r.View())
  {
    hide Inv, Run, ShutdownOps;
    ghost var m0 := r.View();
    ShutdownStep(m0, calls, 0);
    var i := 0;
    while r.queue != []
      invariant Good(r) && !r.aborted && r.down && fresh(r.repr - old(r.repr))
      invariant i + |r.queue| == |old(r.queue)|
      invariant Run(m0, ShutdownOps(calls, i)) == Ok(r.View())
      decreases |r.queue|
    {
      DropOne(r, calls(i));
      if r.aborted { return; }
      ShutdownStep(m0, calls, i);
      i := i + 1;
    }
  }

  lemma ShutdownStep(m0: Machine, calls: nat -> seq<Op>, i: nat)
    ensures Run(m0, ShutdownOps(calls, 0)) == Ok(m0)
    ensures Run(m0, ShutdownOps(calls, i)).Ok? ==>
      Run(m0, ShutdownOps(calls, i + 1))
      == Run(Run(m0, ShutdownOps(calls, i)).value, [OpDropQueued] + ClientOps(calls(i)))
  {
    if Run(m0, ShutdownOps(calls, i)).Ok? {
      RunJoin(m0, ShutdownOps(calls, i), [OpDropQueued] + ClientOps(calls(i)));
    }
  }

  method DropOne(r: Runtime, calls: seq<Op>)
    requires Good(r) && !r.aborted && r.down && r.queue != []
    modifies r.repr
    ensures r.Valid() && fresh(r.repr - old(r.repr))
    ensures !r.aborted ==> Good(r) && r.down && r.queue == old(r.queue)[1..]
    ensures !r.aborted ==> Run(old(r.View()), [OpDropQueued] + ClientOps(calls)) == Ok(r.View())
  {
    ghost var m := r.View();
    DropQueuedTakes(m);
    Exec(r, OpDropQueued);
    if r.aborted { return; }
    ghost var m1 := r.View();
    Calls(r, calls);
    if r.aborted { return; }
    OneStep(m, OpDropQueued, m1, ClientOps(calls), 0);
  }

  lemma DropQueuedTakes(m: Machine)
    requires Inv(m) && m.down && m.queue != []
    ensures Step(m, OpDropQueued).Ok?
    ensures var m' := Step(m, OpDropQueued).value; m'.queue == m.queue[1..] && m'.down && !m'.entered
  {
    StepSafe(m, OpDropQueued);
  }
}
