/**
 What a user of the runtime may rely on, over whole runs of the task machine.
 */
module TaskTheorems {
  import opened Options
  import opened TaskState
  import opened TaskMachine
  import opened TaskSafety

  // ----- memory -----

  /** In every reachable state a cell is freed exactly when nothing refers to it any more. */
  lemma FreedIffUnowned(ops: seq<Op>, id: TaskId)
    ensures Run(START, ops).Ok?
    ensures var m := Run(START, ops).value;
            && (IsLive(m, id) ==> m.slots[id].cell.header.refs == Owners(m, id) >= 1)
            && (id < |m.slots| ==> (m.slots[id].Freed? <==> Owners(m, id) == 0))
  {
    StartInv();
    RunSafe(START, ops);
  }

  /**
   In every reachable state a task is queued once if it is notified and idle, and otherwise not at all;
   once the runtime is being dropped, at most that.
   */
  lemma QueuedExactly(ops: seq<Op>, id: TaskId)
    ensures Run(START, ops).Ok?
    ensures var m := Run(START, ops).value;
            var due := IsLive(m, id) && m.slots[id].cell.header.notified && m.slots[id].cell.header.Idle();
            var n := if due then 1 else 0;
            if m.down then multiset(m.queue)[id] <= n else multiset(m.queue)[id] == n
  {
    StartInv();
    RunSafe(START, ops);
    var m := Run(START, ops).value;
    if id in m.queue { HeldIsLive(m, id); }
  }

  function HistoryOf(s: Slot): History {
    match s
    case Live(c) => c.history
    case Freed(h) => h
  }

  /** What a step may do to a slot. */
  predicate Evolves(s: Slot, s': Slot, polled: bool, joining: bool) {
    match s
    case Freed(_) => s' == s
    case Live(c) =>
      && (c.history.produced.Some? ==> HistoryOf(s').produced == c.history.produced)
      && (s'.Live? ==>
        && (c.header.complete ==> s'.cell.header.complete)
        && (c.header.notified && !polled ==> s'.cell.header.notified)
        && (!joining ==> s'.cell.joinWaker == c.joinWaker && s'.cell.header.joinWaker == c.header.joinWaker))
  }

  predicate PollsTask(m: Machine, op: Op, id: TaskId) {
    op.OpBeginPoll? && m.queue != [] && m.queue[0] == id
  }

  predicate PollsHandle(op: Op, id: TaskId) {
    op.OpPollJoin? && op.task == id
  }

  lemma DropEvolves(m: Machine, id: TaskId, k: TaskId)
    requires DropReference(m, id).Ok? && k < |m.slots|
    ensures var m' := DropReference(m, id).value;
            k < |m'.slots| && Evolves(m.slots[k], m'.slots[k], false, false)
  {}

  lemma WakeEvolves(m: Machine, w: Waker, k: TaskId)
    requires WakeByRef(m, w).Ok? && k < |m.slots|
    ensures var m' := WakeByRef(m, w).value;
            k < |m'.slots| && Evolves(m.slots[k], m'.slots[k], false, false)
  {}

  lemma WakeByValEvolves(m: Machine, id: TaskId, k: TaskId)
    requires WakeByVal(m, id).Ok? && k < |m.slots|
    ensures var m' := WakeByVal(m, id).value;
            k < |m'.slots| && Evolves(m.slots[k], m'.slots[k], false, false)
  {
    var h := m.slots[id].cell.header;
    if !(h.Idle() && !h.notified) {
      DropEvolves(WithHeader(m, id, h.Notify()), id, k);
    }
  }

  lemma SetJoinWakerEvolves(m: Machine, id: TaskId, w: Waker, k: TaskId)
    requires TaskMachine.SetJoinWaker(m, id, w).Ok? && k < |m.slots|
    ensures var m' := TaskMachine.SetJoinWaker(m, id, w).value;
            k < |m'.slots| && Evolves(m.slots[k], m'.slots[k], false, k == id)
  {}

  lemma PollJoinEvolves(m: Machine, id: TaskId, w: Waker, k: TaskId)
    requires Inv(m) && PollJoin(m, id, w).Ok? && k < |m.slots|
    ensures var m' := PollJoin(m, id, w).value.0;
            k < |m'.slots| && Evolves(m.slots[k], m'.slots[k], false, k == id)
  {
    var c := m.slots[id].cell;
    if !c.header.complete && !(c.header.joinWaker && c.joinWaker.value == w) {
      var m1 := if c.header.joinWaker
                then Store(m, id, c.(header := c.header.(joinWaker := false),
                                     history := c.history.(registered := None)))
                else m;
      SetJoinWakerEvolves(m1, id, w, k);
    }
  }

  lemma FinishReadyEvolves(m: Machine, v: int, k: TaskId)
    requires Inv(m) && m.current.Polling? && FinishReady(m, v).Ok? && k < |m.slots|
    ensures var m' := FinishReady(m, v).value;
            k < |m'.slots| && Evolves(m.slots[k], m'.slots[k], false, false)
  {
    var id := m.current.task;
    HeldIsLive(m, id);
    var c := m.slots[id].cell;
    assert CellOk(c, id in m.joins);
    if c.header.joinInterest && c.header.joinWaker {
      var done := c.(header := c.header.(running := false, complete := true), stage := Finished(v),
                     history := c.history.(produced := Some(v)));
      WakeEvolves(Store(m, id, done).(current := Finishing(id)), done.joinWaker.value, k);
    }
  }

  lemma BeginPollEvolves(m: Machine, k: TaskId)
    requires k < |m.slots| && m.queue != [] && BeginPoll(m).Ok?
    ensures var m' := BeginPoll(m).value;
            k < |m'.slots| && Evolves(m.slots[k], m'.slots[k], m.queue[0] == k, false)
  {}

  lemma FinishPendingEvolves(m: Machine, k: TaskId)
    requires k < |m.slots| && m.current.Polling? && FinishPending(m).Ok?
    ensures var m' := FinishPending(m).value;
            k < |m'.slots| && Evolves(m.slots[k], m'.slots[k], false, false)
  {}

  lemma DropJoinEvolves(m: Machine, id: TaskId, k: TaskId)
    requires DropJoin(m, id).Ok? && k < |m.slots|
    ensures var m' := DropJoin(m, id).value;
            k < |m'.slots| && Evolves(m.slots[k], m'.slots[k], false, false)
  {
    if k != id { assert DropJoin(m, id).value.slots[k] == m.slots[k]; }
  }

  lemma CloneEvolves(m: Machine, w: Waker, k: TaskId)
    requires CloneWaker(m, w).Ok? && k < |m.slots|
    ensures var m' := CloneWaker(m, w).value;
            k < |m'.slots| && Evolves(m.slots[k], m'.slots[k], false, false)
  {}

  lemma ReferenceStepEvolves(m: Machine, op: Op, k: TaskId)
    requires Enabled(m, op) && Step(m, op).Ok? && k < |m.slots|
    requires op.OpDropTask? || op.OpDropWaker? || op.OpCloseJoin? || op.OpRelease? || op.OpWakeByVal?
          || op.OpDropQueued?
    ensures var m' := Step(m, op).value;
            k < |m'.slots| && Evolves(m.slots[k], m'.slots[k], false, false)
  {
    match op {
      case OpDropTask => DropEvolves(m.(current := NoTask), m.current.task, k);
      case OpDropWaker(id) => DropEvolves(m.(wakers := m.wakers - multiset{id}), id, k);
      case OpCloseJoin(id) => DropEvolves(m.(closing := m.closing - {id}), id, k);
      case OpRelease(id) => DropEvolves(m.(dropping := m.dropping - multiset{id}), id, k);
      case OpDropQueued => DropEvolves(m.(queue := m.queue[1..]), m.queue[0], k);
      case OpWakeByVal(id) => WakeByValEvolves(m.(wakers := m.wakers - multiset{id}), id, k);
    }
  }

  /** How one step may change any slot that exists. */
  lemma StepEvolves(m: Machine, op: Op, k: TaskId)
    requires Inv(m) && Proper(m, op) && Step(m, op).Ok? && k < |m.slots|
    ensures var m' := Step(m, op).value;
            && k < |m'.slots|
            && Evolves(m.slots[k], m'.slots[k], PollsTask(m, op, k), PollsHandle(op, k))
  {
    match op {
      case OpEnter =>
      case OpLeave =>
      case OpShouldPoll =>
      case OpShutdown =>
      case OpSpawn =>
      case OpBeginPoll => BeginPollEvolves(m, k);
      case OpFinishPending => FinishPendingEvolves(m, k);
      case OpFinishReady(v) => FinishReadyEvolves(m, v, k);
      case OpPollJoin(id, w) => PollJoinEvolves(m, id, w, k);
      case OpWakeByRef(w) => WakeEvolves(m, w, k);
      case OpCloneWaker(w) => CloneEvolves(m, w, k);
      case OpDropJoin(id) => DropJoinEvolves(m, id, k);
      case _ => ReferenceStepEvolves(m, op, k);
    }
  }

  predicate Completed(s: Slot) {
    HistoryOf(s).produced.Some?
  }

  /** A freed cell is never revived, freed again or touched; a produced output is never replaced. */
  lemma {:induction false} FreedForever(m: Machine, ops: seq<Op>, id: TaskId)
    requires Inv(m) && id < |m.slots|
    ensures Run(m, ops).Ok? && id < |Run(m, ops).value.slots|
    ensures m.slots[id].Freed? ==> Run(m, ops).value.slots[id] == m.slots[id]
    ensures Completed(m.slots[id]) ==>
      HistoryOf(Run(m, ops).value.slots[id]).produced == HistoryOf(m.slots[id]).produced
    decreases ops
  {
    if ops != [] {
      if Proper(m, ops[0]) {
        StepSafe(m, ops[0]);
        StepEvolves(m, ops[0], id);
        FreedForever(Step(m, ops[0]).value, ops[1..], id);
      } else {
        FreedForever(m, ops[1..], id);
      }
    }
  }

  // ----- outputs -----

  /**
   An output goes to one place only: at most one fate while the cell lives, and exactly one once the
   task has completed and its cell is freed or its handle is gone.
   */
  lemma OutputConsumedOnce(ops: seq<Op>, id: TaskId)
    ensures Run(START, ops).Ok?
    ensures var m := Run(START, ops).value;
            id < |m.slots| ==>
              var h := HistoryOf(m.slots[id]);
              && |h.fates| <= 1
              && (h.produced.None? ==> h.fates == [])
              && (h.produced.Some? && (m.slots[id].Freed? || id !in m.joins) ==> Settled(h))
              && (h.fates != [] ==> h.produced.Some? && (h.fates == [Delivered(h.produced.value)]
                                                      || h.fates == [Dropped(h.produced.value)]))
  {
    StartInv();
    RunSafe(START, ops);
    var m := Run(START, ops).value;
    if IsLive(m, id) {
      assert CellOk(m.slots[id].cell, id in m.joins);
    } else if id < |m.slots| {
      assert FreedOk(m.slots[id].history);
    }
  }

  /** A poll of the handle is ready exactly when the task is complete, with the value it produced. */
  lemma PollJoinResult(m: Machine, id: TaskId, w: Waker)
    requires Inv(m) && Proper(m, OpPollJoin(id, w))
    ensures PollJoin(m, id, w).Ok? && IsLive(m, id)
    ensures var c, r := m.slots[id].cell, PollJoin(m, id, w).value.1;
            && (r.Ready? <==> c.header.complete)
            && (r.Ready? ==> c.history.produced == Some(r.value))
  {
    HeldIsLive(m, id);
    assert CellOk(m.slots[id].cell, true);
    StepSafe(m, OpPollJoin(id, w));
  }

  // ----- who drops an output -----

  predicate SameFates(s: Slot, s': Slot) {
    HistoryOf(s').fates == HistoryOf(s).fates
  }

  /** Dropping a reference in hand frees no cell that still holds an output. */
  lemma DropFrees(m: Machine, id: TaskId, k: TaskId)
    requires InvWith(m, multiset{id}) && DropReference(m, id).Ok? && IsLive(m, k)
    ensures var m' := DropReference(m, id).value;
            k < |m'.slots| && SameFates(m.slots[k], m'.slots[k])
            && (m'.slots[k].Freed? ==> !m.slots[k].cell.stage.Finished?)
  {
    CellFacts(m, multiset{id}, k);
    if m.slots[id].cell.header.refs == 1 && k == id {
      LastReference(m, id);
    }
  }

  lemma LastReference(m: Machine, id: TaskId)
    requires CountedWith(m, multiset{id}) && IsLive(m, id) && m.slots[id].cell.header.refs == 1
    ensures id !in m.joins
  {
    assert Owners(m, id) + multiset{id}[id] == 1;
  }

  lemma WakeByValFrees(m: Machine, id: TaskId, k: TaskId)
    requires InvWith(m, multiset{id}) && WakeByVal(m, id).Ok? && IsLive(m, k)
    ensures var m' := WakeByVal(m, id).value;
            k < |m'.slots| && SameFates(m.slots[k], m'.slots[k])
            && (m'.slots[k].Freed? ==> !m.slots[k].cell.stage.Finished?)
  {
    var h := m.slots[id].cell.header;
    if !Submits(h) {
      NotifyInv(m, multiset{id}, id);
      DropFrees(WithHeader(m, id, h.Notify()), id, k);
    }
  }

  /** The steps that drop a reference, and so may free a cell. */
  predicate DropsReference(op: Op) {
    op.OpDropTask? || op.OpDropWaker? || op.OpCloseJoin? || op.OpRelease? || op.OpWakeByVal? || op.OpDropQueued?
  }

  lemma TakeFrees(m: Machine, m1: Machine, id: TaskId, k: TaskId)
    requires Inv(m) && Takes(m, m1, id) && IsLive(m, k) && DropReference(m1, id).Ok?
    ensures var m' := DropReference(m1, id).value;
            k < |m'.slots| && SameFates(m.slots[k], m'.slots[k])
            && (m'.slots[k].Freed? ==> !m.slots[k].cell.stage.Finished?)
  {
    TakeInv(m, m1, id);
    DropFrees(m1, id, k);
  }

  lemma SpendFrees(m: Machine, id: TaskId, k: TaskId)
    requires Inv(m) && id in m.wakers && WakeByVal(m.(wakers := m.wakers - multiset{id}), id).Ok? && IsLive(m, k)
    ensures var m' := WakeByVal(m.(wakers := m.wakers - multiset{id}), id).value;
            k < |m'.slots| && SameFates(m.slots[k], m'.slots[k])
            && (m'.slots[k].Freed? ==> !m.slots[k].cell.stage.Finished?)
  {
    var m1 := m.(wakers := m.wakers - multiset{id});
    TakesWaker(m, id);
    TakeInv(m, m1, id);
    WakeByValFrees(m1, id, k);
  }

  lemma ReferenceStepFates(m: Machine, op: Op, k: TaskId)
    requires Inv(m) && Proper(m, op) && Step(m, op).Ok? && DropsReference(op) && IsLive(m, k)
    ensures var m' := Step(m, op).value;
            k < |m'.slots| && SameFates(m.slots[k], m'.slots[k])
            && (m'.slots[k].Freed? ==> !m.slots[k].cell.stage.Finished?)
  {
    hide Inv, InvWith, Takes, WakeByVal, DropReference;
    match op {
      case OpDropTask =>
        TakesFinished(m);
        TakeFrees(m, m.(current := NoTask), m.current.task, k);
      case OpDropWaker(id) =>
        TakesWaker(m, id);
        TakeFrees(m, m.(wakers := m.wakers - multiset{id}), id, k);
      case OpCloseJoin(id) =>
        TakesClosing(m, id);
        TakeFrees(m, m.(closing := m.closing - {id}), id, k);
      case OpRelease(id) =>
        TakesDropping(m, id);
        TakeFrees(m, m.(dropping := m.dropping - multiset{id}), id, k);
      case OpDropQueued =>
        TakesQueued(m);
        TakeFrees(m, m.(queue := m.queue[1..]), m.queue[0], k);
      case OpWakeByVal(id) => SpendFrees(m, id, k);
    }
  }

  lemma WakeFates(m: Machine, w: Waker, k: TaskId)
    requires WakeByRef(m, w).Ok? && IsLive(m, k)
    ensures IsLive(WakeByRef(m, w).value, k) && SameFates(m.slots[k], WakeByRef(m, w).value.slots[k])
  {}

  /** Completing a task drops its output exactly if its handle is gone. */
  lemma FinishReadyFates(m: Machine, v: int, k: TaskId)
    requires Inv(m) && m.current.Polling? && FinishReady(m, v).Ok? && IsLive(m, k)
    ensures var m' := FinishReady(m, v).value;
            IsLive(m', k) && HistoryOf(m'.slots[k]).fates == HistoryOf(m.slots[k]).fates +
              if m.current == Polling(k) && k !in m.joins then [Dropped(v)] else []
  {
    var id := m.current.task;
    HeldIsLive(m, id);
    var c := m.slots[id].cell;
    assert CellOk(c, id in m.joins);
    var done := c.(header := c.header.(running := false, complete := true), stage := Finished(v),
                   history := c.history.(produced := Some(v)));
    if c.header.joinInterest && c.header.joinWaker {
      WakeFates(Store(m, id, done).(current := Finishing(id)), done.joinWaker.value, k);
    }
  }

  lemma SetJoinWakerFates(m: Machine, id: TaskId, w: Waker, k: TaskId)
    requires TaskMachine.SetJoinWaker(m, id, w).Ok? && IsLive(m, k)
    ensures var m' := TaskMachine.SetJoinWaker(m, id, w).value;
            IsLive(m', k) && SameFates(m.slots[k], m'.slots[k])
  {}

  /** Polling the handle of a complete task delivers the output; no other poll does anything to one. */
  lemma PollJoinFates(m: Machine, id: TaskId, w: Waker, k: TaskId)
    requires PollJoin(m, id, w).Ok? && IsLive(m, k)
    ensures var m' := PollJoin(m, id, w).value.0;
            IsLive(m', k) && HistoryOf(m'.slots[k]).fates == HistoryOf(m.slots[k]).fates +
              if k == id && m.slots[k].cell.header.complete then [Delivered(m.slots[k].cell.stage.output)] else []
  {
    var c := m.slots[id].cell;
    if !c.header.complete && !(c.header.joinWaker && c.joinWaker.value == w) {
      var m1 := if c.header.joinWaker
                then Store(m, id, c.(header := c.header.(joinWaker := false),
                                     history := c.history.(registered := None)))
                else m;
      SetJoinWakerFates(m1, id, w, k);
    }
  }

  /** Dropping the handle drops the output that is still there. */
  lemma DropJoinFates(m: Machine, id: TaskId, k: TaskId)
    requires DropJoin(m, id).Ok? && IsLive(m, k)
    ensures var m' := DropJoin(m, id).value;
            IsLive(m', k) && HistoryOf(m'.slots[k]).fates == HistoryOf(m.slots[k]).fates +
              if k == id && m.slots[k].cell.header.complete && m.slots[k].cell.stage.Finished?
              then [Dropped(m.slots[k].cell.stage.output)] else []
  {}

  /** What a step does to the output of task `k`, and nothing else. */
  function NewFates(m: Machine, op: Op, k: TaskId): seq<Fate>
    requires IsLive(m, k)
  {
    var c := m.slots[k].cell;
    match op
    case OpFinishReady(v) => if m.current == Polling(k) && k !in m.joins then [Dropped(v)] else []
    case OpPollJoin(id, _) =>
      if id == k && c.header.complete && c.stage.Finished? then [Delivered(c.stage.output)] else []
    case OpDropJoin(id) =>
      if id == k && c.header.complete && c.stage.Finished? then [Dropped(c.stage.output)] else []
    case _ => []
  }

  /**
   Who takes an output: the poll of the handle delivers it; it is dropped when the task completes
   without a handle, or with the handle, and never by whoever frees the cell.
   */
  lemma OutputTakenBy(m: Machine, op: Op, k: TaskId)
    requires Inv(m) && Proper(m, op) && Step(m, op).Ok? && IsLive(m, k)
    ensures var m' := Step(m, op).value;
            && k < |m'.slots| && HistoryOf(m'.slots[k]).fates == HistoryOf(m.slots[k]).fates + NewFates(m, op, k)
            && (m'.slots[k].Freed? ==> !m.slots[k].cell.stage.Finished?)
  {
    match op {
      case OpFinishReady(v) => FinishReadyFates(m, v, k);
      case OpPollJoin(id, w) => PollJoinFates(m, id, w, k);
      case OpDropJoin(id) => DropJoinFates(m, id, k);
      case OpWakeByRef(w) => WakeFates(m, w, k);
      case _ => if DropsReference(op) { ReferenceStepFates(m, op, k); } else { OtherStepFates(m, op, k); }
    }
  }

  lemma OtherStepFates(m: Machine, op: Op, k: TaskId)
    requires Enabled(m, op) && Step(m, op).Ok? && IsLive(m, k) && !DropsReference(op)
    requires !op.OpFinishReady? && !op.OpPollJoin? && !op.OpDropJoin? && !op.OpWakeByRef?
    ensures IsLive(Step(m, op).value, k) && SameFates(m.slots[k], Step(m, op).value.slots[k])
  {
    if op.OpBeginPoll? || op.OpFinishPending? {
      EdgeStepFates(m, op, k);
    } else {
      hide BeginPoll, FinishPending;
    }
  }

  lemma EdgeStepFates(m: Machine, op: Op, k: TaskId)
    requires Enabled(m, op) && Step(m, op).Ok? && IsLive(m, k) && (op.OpBeginPoll? || op.OpFinishPending?)
    ensures IsLive(Step(m, op).value, k) && SameFates(m.slots[k], Step(m, op).value.slots[k])
  {}

  /** When the cell of a completed task is freed, its stage is Consumed. */
  lemma FreedIsConsumed(m: Machine, op: Op, id: TaskId)
    requires Inv(m) && Proper(m, op) && Step(m, op).Ok? && IsLive(m, id)
    requires id < |Step(m, op).value.slots| && Step(m, op).value.slots[id].Freed?
    ensures m.slots[id].cell.header.complete ==> m.slots[id].cell.stage == Consumed
  {
    OutputTakenBy(m, op, id);
    assert CellOk(m.slots[id].cell, id in m.joins);
  }

  // ----- after the runtime -----

  /** The cell of task `j` keeps that of task `id` by storing a join waker of it. */
  predicate Keeps(m: Machine, j: TaskId, id: TaskId) {
    IsLive(m, j) && m.slots[j].cell.joinWaker == Some(TaskWaker(id))
  }

  /** Each cell is kept by the next one, and the last by the first. */
  predicate KeptInCircle(m: Machine, cycle: seq<TaskId>) {
    && |cycle| >= 2 && cycle[0] == cycle[|cycle| - 1]
    && forall k :: 0 <= k < |cycle| - 1 ==> Keeps(m, cycle[k + 1], cycle[k])
  }

  /** The queue is gone and nobody outside of the cells holds a reference. */
  predicate Abandoned(m: Machine) {
    && m.queue == [] && m.current.NoTask? && m.joins == {} && m.closing == {}
    && m.wakers == multiset{} && m.dropping == multiset{}
  }

  lemma LeakedIsKept(m: Machine, id: TaskId) returns (j: TaskId)
    requires Inv(m) && Abandoned(m) && IsLive(m, id)
    ensures m.slots[id].cell.header.refs == Stored(m.slots, id)
    ensures Keeps(m, j, id)
  {
    assert Owners(m, id) == Refs(m, id) >= 1;
    j := SomeHolder(m.slots, id);
  }

  /** Follows the holders from one leaked cell. */
  lemma {:induction false} Keepers(m: Machine, id: TaskId, n: nat) returns (p: seq<TaskId>)
    requires Inv(m) && Abandoned(m) && IsLive(m, id)
    ensures |p| == n + 1 && p[0] == id
    ensures forall k :: 0 <= k <= n ==> IsLive(m, p[k])
    ensures forall k :: 0 <= k < n ==> Keeps(m, p[k + 1], p[k])
  {
    hide Inv, Abandoned;
    p := [id];
    if n > 0 {
      p := Keepers(m, id, n - 1);
      var j := LeakedIsKept(m, p[n - 1]);
      p := p + [j];
    }
  }

  lemma {:induction false} Pigeons(p: seq<nat>, n: nat) returns (a: nat, b: nat)
    requires |p| > n && forall k :: 0 <= k < |p| ==> p[k] < n
    ensures a < b < |p| && p[a] == p[b]
    decreases n
  {
    var last := |p| - 1;
    assert p[last] < n;
    if k :| 0 <= k < last && p[k] == p[last] {
      a, b := k, last;
    } else {
      // What is in the highest hole moves to that of the last one.
      var q := seq(last, k requires 0 <= k < last => if p[k] == n - 1 then p[last] else p[k]);
      a, b := Pigeons(q, n - 1);
    }
  }

  /** A cell keeps one other, so two ways back from one cell are the same. */
  lemma {:induction false} SameWayBack(m: Machine, p: seq<TaskId>, a: nat, b: nat)
    requires a < b < |p| && p[a] == p[b]
    requires forall k :: 0 <= k < |p| - 1 ==> Keeps(m, p[k + 1], p[k])
    ensures p[0] == p[b - a]
    decreases a
  {
    if a > 0 {
      assert Keeps(m, p[a - 1 + 1], p[a - 1]) && Keeps(m, p[b - 1 + 1], p[b - 1]);
      SameWayBack(m, p, a - 1, b - 1);
    }
  }

  /**
   When the queue is gone and nobody outside holds a reference, every cell that is not freed is on a
   circle of cells that store each other's join wakers: only tasks that wait for each other leak.
   */
  lemma OnlyCyclesLeak(ops: seq<Op>, id: TaskId)
    requires Run(START, ops).Ok?
    requires var m := Run(START, ops).value; Abandoned(m) && IsLive(m, id)
    ensures var m := Run(START, ops).value;
            exists cycle :: KeptInCircle(m, cycle) && cycle[0] == id
  {
    StartInv();
    RunSafe(START, ops);
    var m := Run(START, ops).value;
    var p := Keepers(m, id, |m.slots|);
    var a, b := Pigeons(p, |m.slots|);
    SameWayBack(m, p, a, b);
    assert KeptInCircle(m, p[..b - a + 1]);
  }

  lemma {:induction false} SomeHolder(slots: seq<Slot>, id: TaskId) returns (j: nat)
    requires Stored(slots, id) >= 1
    ensures j < |slots| && slots[j].Live? && slots[j].cell.joinWaker == Some(TaskWaker(id))
  {
    j := |slots| - 1;
    if Holds(slots[j], id) == 0 { j := SomeHolder(slots[..j], id); }
  }

  // ----- wakes -----

  predicate Due(s: Slot) {
    s.Live? && s.cell.header.notified
  }

  /** A wake of a task, at any time before it completes, leaves it due for a poll. */
  lemma WakeMakesDue(m: Machine, op: Op, id: TaskId)
    requires Inv(m) && !m.down && Proper(m, op) && IsLive(m, id) && !Completed(m.slots[id])
    requires op == OpWakeByRef(TaskWaker(id)) || op == OpWakeByVal(id)
    ensures Step(m, op).Ok? && id < |Step(m, op).value.slots| && Due(Step(m, op).value.slots[id])
  {
    assert CellOk(m.slots[id].cell, id in m.joins);
    if op.OpWakeByVal? {
      WakeByValMakesDue(m, id);
    }
  }

  lemma WakeByValMakesDue(m: Machine, id: TaskId)
    requires Inv(m) && !m.down && id in m.wakers && MayWake(m, id) && IsLive(m, id) && !Completed(m.slots[id])
    ensures var m1 := m.(wakers := m.wakers - multiset{id});
            WakeByVal(m1, id).Ok? && id < |WakeByVal(m1, id).value.slots|
            && Due(WakeByVal(m1, id).value.slots[id])
  {
    var h := m.slots[id].cell.header;
    assert CellOk(m.slots[id].cell, id in m.joins);
    if !(h.Idle() && !h.notified) {
      assert h.running || multiset(m.queue)[id] == 1;
      assert Owners(m, id) >= 2;
      assert h.refs >= 2;
    }
  }

  predicate Held(m: Machine, id: TaskId) {
    id in m.queue || m.current == Polling(id)
  }

  lemma DueIsHeld(m: Machine, id: TaskId)
    requires Inv(m) && !m.down && id < |m.slots| && Due(m.slots[id]) && !Completed(m.slots[id])
    ensures Held(m, id)
  {
    var c := m.slots[id].cell;
    assert CellOk(c, id in m.joins);
    assert c.header.Idle() ==> multiset(m.queue)[id] == 1;
  }

  lemma WakeHolds(m: Machine, w: Waker, id: TaskId)
    requires WakeByRef(m, w).Ok? && Held(m, id)
    ensures Held(WakeByRef(m, w).value, id)
  {}

  lemma EdgeHolds(m: Machine, op: Op, id: TaskId)
    requires Enabled(m, op) && Step(m, op).Ok? && Held(m, id) && !PollsTask(m, op, id)
    requires op.OpBeginPoll? || op.OpFinishPending? || op.OpDropTask?
    ensures Held(Step(m, op).value, id) || Step(m, op).value.current == Finishing(id)
  {
    if op.OpBeginPoll? {
      assert m.queue == [m.queue[0]] + m.queue[1..];
    }
  }

  lemma ReadyHolds(m: Machine, v: int, id: TaskId)
    requires m.current.Polling? && FinishReady(m, v).Ok? && Held(m, id)
    ensures Held(FinishReady(m, v).value, id) || FinishReady(m, v).value.current == Finishing(id)
  {}

  /** A held task stays held until `block_on` takes it from the queue, its poll ends or the queue is dropped. */
  lemma StepHolds(m: Machine, op: Op, id: TaskId)
    requires Proper(m, op) && !m.down && Step(m, op).Ok? && Held(m, id) && !PollsTask(m, op, id)
    ensures Held(Step(m, op).value, id) || Step(m, op).value.current == Finishing(id)
  {
    match op {
      case OpBeginPoll => EdgeHolds(m, op, id);
      case OpFinishPending => EdgeHolds(m, op, id);
      case OpDropTask => EdgeHolds(m, op, id);
      case OpFinishReady(v) => ReadyHolds(m, v, id);
      case OpWakeByRef(w) => WakeHolds(m, w, id);
      case OpPollJoin(k, w) => PollHolds(m, k, w, id);
      case _ => OtherHolds(m, op, id);
    }
  }

  lemma RegisterKeepsQueue(m: Machine, id: TaskId, w: Waker)
    requires SetJoinWaker(m, id, w).Ok?
    ensures var m' := SetJoinWaker(m, id, w).value;
            m'.joins == m.joins && m'.queue == m.queue && m'.current == m.current && m'.down == m.down
  {}

  /** Polling a handle changes neither the handles, nor the queue, nor what runs. */
  lemma PollKeepsQueue(m: Machine, id: TaskId, w: Waker)
    requires PollJoin(m, id, w).Ok?
    ensures var m' := PollJoin(m, id, w).value.0;
            m'.joins == m.joins && m'.queue == m.queue && m'.current == m.current && m'.down == m.down
  {
    var c := m.slots[id].cell;
    if !c.header.complete && !(c.header.joinWaker && c.joinWaker.value == w) {
      var m1 := if c.header.joinWaker
                then Store(m, id, c.(header := c.header.(joinWaker := false),
                                     history := c.history.(registered := None)))
                else m;
      RegisterKeepsQueue(m1, id, w);
      hide SetJoinWaker;
    }
  }

  lemma PollHolds(m: Machine, k: TaskId, w: Waker, id: TaskId)
    requires PollJoin(m, k, w).Ok? && Held(m, id)
    ensures Held(PollJoin(m, k, w).value.0, id)
  {
    PollKeepsQueue(m, k, w);
  }

  lemma OtherHolds(m: Machine, op: Op, id: TaskId)
    requires Proper(m, op) && !m.down && Step(m, op).Ok? && Held(m, id)
    requires !op.OpBeginPoll? && !op.OpFinishPending? && !op.OpDropTask? && !op.OpFinishReady?
    requires !op.OpWakeByRef? && !op.OpPollJoin?
    ensures Held(Step(m, op).value, id)
  {}

  predicate PolledIn(m: Machine, ops: seq<Op>, id: TaskId)
    decreases ops
  {
    if ops == [] then
      false
    else if !Proper(m, ops[0]) then
      PolledIn(m, ops[1..], id)
    else
      PollsTask(m, ops[0], id) || (Step(m, ops[0]).Ok? && PolledIn(Step(m, ops[0]).value, ops[1..], id))
  }

  lemma StepKeepsDue(m: Machine, op: Op, id: TaskId)
    requires Inv(m) && !m.down && Proper(m, op) && !PollsTask(m, op, id)
    requires id < |m.slots| && Due(m.slots[id]) && !Completed(m.slots[id])
    ensures Step(m, op).Ok? && Inv(Step(m, op).value) && id < |Step(m, op).value.slots|
    ensures Due(Step(m, op).value.slots[id])
  {
    StepSafe(m, op);
    var m' := Step(m, op).value;
    DueIsHeld(m, id);
    StepHolds(m, op, id);
    HeldIsLive(m', id);
    StepEvolves(m, op, id);
  }

  lemma {:induction false} DownForever(m: Machine, ops: seq<Op>)
    requires Inv(m) && m.down
    ensures Run(m, ops).Ok? && Run(m, ops).value.down
    decreases ops
  {
    if ops != [] {
      if Proper(m, ops[0]) {
        StepSafe(m, ops[0]);
        StepKeepsDown(m, ops[0]);
        DownForever(Step(m, ops[0]).value, ops[1..]);
      } else {
        DownForever(m, ops[1..]);
      }
    }
  }

  lemma StepKeepsDown(m: Machine, op: Op)
    requires Inv(m) && m.down && Proper(m, op) && Step(m, op).Ok?
    ensures Step(m, op).value.down
  {
    match op {
      case OpPollJoin(id, w) => PollKeepsQueue(m, id, w);
      case OpWakeByVal(id) => WakeByValKeepsDown(m.(wakers := m.wakers - multiset{id}), id);
      case _ =>
    }
  }

  lemma WakeByValKeepsDown(m: Machine, id: TaskId)
    requires WakeByVal(m, id).Ok?
    ensures WakeByVal(m, id).value.down == m.down
  {}

  /**
   No lost wakeup: along any run a due task stays due until it is polled, or completes, or the runtime
   is dropped.
   */
  lemma {:induction false} NoLostWakeup(m: Machine, ops: seq<Op>, id: TaskId)
    requires Inv(m) && id < |m.slots| && Due(m.slots[id])
    ensures Run(m, ops).Ok? && id < |Run(m, ops).value.slots|
    ensures PolledIn(m, ops, id) || Due(Run(m, ops).value.slots[id]) || Completed(Run(m, ops).value.slots[id])
         || Run(m, ops).value.down
    decreases ops
  {
    RunSafe(m, ops);
    if m.down {
      FreedForever(m, ops, id);
      DownForever(m, ops);
    } else if Completed(m.slots[id]) {
      FreedForever(m, ops, id);
    } else if ops != [] {
      if !Proper(m, ops[0]) {
        NoLostWakeup(m, ops[1..], id);
      } else if !PollsTask(m, ops[0], id) {
        StepKeepsDue(m, ops[0], id);
        NoLostWakeup(Step(m, ops[0]).value, ops[1..], id);
      } else {
        FreedForever(m, ops, id);
      }
    }
  }

  /** When `block_on` parks, its queue being empty, no unfinished task is waiting for a poll. */
  lemma NoWorkAtPark(m: Machine, id: TaskId)
    requires Inv(m) && m.entered && m.current.NoTask? && m.queue == [] && IsLive(m, id)
    ensures m.slots[id].cell.header.notified ==> Completed(m.slots[id])
  {
    assert CellOk(m.slots[id].cell, id in m.joins);
    assert multiset(m.queue)[id] == 0;
  }

  // ----- joining -----

  /** The handle of `id` is waiting on waker `w`. */
  predicate WaitsOn(m: Machine, id: TaskId, w: Waker) {
    && IsLive(m, id) && id in m.joins
    && m.slots[id].cell.header.joinWaker && m.slots[id].cell.joinWaker == Some(w)
  }

  predicate Woken(m: Machine, w: Waker) {
    match w
    case MainWaker => m.shouldPoll
    case ForeignWaker(_) => true
    case TaskWaker(id) => id < |m.slots| && (Due(m.slots[id]) || Completed(m.slots[id]))
  }

  lemma SetJoinWakerRegisters(m: Machine, id: TaskId, w: Waker)
    requires TaskMachine.SetJoinWaker(m, id, w).Ok? && id in m.joins
    ensures WaitsOn(TaskMachine.SetJoinWaker(m, id, w).value, id, w)
  {}

  /** A poll that returns Pending leaves the handle waiting on the waker it was given. */
  lemma PendingRegisters(m: Machine, id: TaskId, w: Waker)
    requires Inv(m) && Proper(m, OpPollJoin(id, w)) && PollJoin(m, id, w).Ok?
    requires PollJoin(m, id, w).value.1.Pending?
    ensures WaitsOn(PollJoin(m, id, w).value.0, id, w)
  {
    var c := m.slots[id].cell;
    if c.header.joinWaker {
      if c.joinWaker.value != w {
        SetJoinWakerRegisters(
          Store(m, id, c.(header := c.header.(joinWaker := false), history := c.history.(registered := None))), id, w);
      }
    } else {
      SetJoinWakerRegisters(m, id, w);
    }
  }

  /** The step does not poll or drop the handle of `id`. */
  predicate LeavesHandle(op: Op, id: TaskId) {
    !PollsHandle(op, id) && op != OpDropJoin(id)
  }

  lemma JoinsKept(m: Machine, op: Op, id: TaskId)
    requires Inv(m) && Proper(m, op) && Step(m, op).Ok? && id in m.joins && LeavesHandle(op, id)
    ensures id in Step(m, op).value.joins
  {
    match op {
      case OpFinishReady(v) => ReadyKeepsJoins(m, v);
      case OpPollJoin(k, w) => PollKeepsQueue(m, k, w);
      case OpWakeByVal(k) => WakeByValKeepsJoins(m.(wakers := m.wakers - multiset{k}), k);
      case OpWakeByRef(w) => WakeKeepsJoins(m, w);
      case _ => OthersKeepJoins(m, op, id);
    }
  }

  lemma OthersKeepJoins(m: Machine, op: Op, id: TaskId)
    requires Proper(m, op) && Step(m, op).Ok? && id in m.joins && op != OpDropJoin(id)
    requires !op.OpFinishReady? && !op.OpPollJoin? && !op.OpWakeByVal? && !op.OpWakeByRef?
    ensures id in Step(m, op).value.joins
  {}

  lemma WakeKeepsJoins(m: Machine, w: Waker)
    requires WakeByRef(m, w).Ok?
    ensures WakeByRef(m, w).value.joins == m.joins
  {}

  lemma ReadyKeepsJoins(m: Machine, v: int)
    requires m.current.Polling? && FinishReady(m, v).Ok?
    ensures FinishReady(m, v).value.joins == m.joins
  {}

  lemma WakeByValKeepsJoins(m: Machine, id: TaskId)
    requires WakeByVal(m, id).Ok?
    ensures WakeByVal(m, id).value.joins == m.joins
  {}

  /** The registration survives every step that is not the handle's own. */
  lemma {:induction false} StaysWaiting(m: Machine, ops: seq<Op>, id: TaskId, w: Waker)
    requires Inv(m) && WaitsOn(m, id, w)
    requires forall i :: 0 <= i < |ops| ==> LeavesHandle(ops[i], id)
    ensures Run(m, ops).Ok? && WaitsOn(Run(m, ops).value, id, w)
    decreases ops
  {
    if ops != [] {
      if Proper(m, ops[0]) {
        StepSafe(m, ops[0]);
        StepEvolves(m, ops[0], id);
        JoinsKept(m, ops[0], id);
        HeldIsLive(Step(m, ops[0]).value, id);
        StaysWaiting(Step(m, ops[0]).value, ops[1..], id, w);
      } else {
        StaysWaiting(m, ops[1..], id, w);
      }
    }
  }

  /** Completing a task whose handle waits on `w` wakes `w`. */
  lemma CompletionWakes(m: Machine, v: int, w: Waker)
    requires Inv(m) && m.current.Polling? && WaitsOn(m, m.current.task, w)
    ensures FinishReady(m, v).Ok? && Woken(FinishReady(m, v).value, w)
  {
    var id := m.current.task;
    StepSafe(m, OpFinishReady(v));
    var c := m.slots[id].cell;
    assert CellOk(c, true);
    var done := c.(header := c.header.(running := false, complete := true), stage := Finished(v),
                   history := c.history.(produced := Some(v)));
    var m1 := Store(m, id, done).(current := Finishing(id));
    assert FinishReady(m, v) == WakeByRef(m1, w);
    if w.TaskWaker? {
      var j := w.task;
      InvIsInvWith(m);
      StoredWakerIsLive(m, multiset{}, id);
      assert CellOk(m.slots[j].cell, j in m.joins);
    }
  }

  /**
   The whole protocol: once a poll of the handle has returned Pending with waker `w`, and as long as
   the handle is not polled again or dropped, the completion of the task wakes `w`, whatever runs in
   between.
   */
  lemma JoinerIsWoken(m: Machine, id: TaskId, w: Waker, m1: Machine, ops: seq<Op>, v: int)
    requires Inv(m) && Proper(m, OpPollJoin(id, w)) && PollJoin(m, id, w) == Ok((m1, Pending))
    requires forall i :: 0 <= i < |ops| ==> LeavesHandle(ops[i], id)
    ensures Run(m1, ops).Ok?
    ensures var m' := Run(m1, ops).value;
            m'.current == Polling(id) ==> FinishReady(m', v).Ok? && Woken(FinishReady(m', v).value, w)
  {
    PendingKeepsInv(m, id, w, m1);
    PendingRegisters(m, id, w);
    WaitingIsWoken(m1, id, w, ops, v);
  }

  lemma PendingKeepsInv(m: Machine, id: TaskId, w: Waker, m1: Machine)
    requires Inv(m) && Proper(m, OpPollJoin(id, w)) && PollJoin(m, id, w) == Ok((m1, Pending))
    ensures Inv(m1)
  {
    if w.TaskWaker? { HeldIsLive(m, w.task); }
    InvIsInvWith(m);
    PollJoinInv(m, multiset{}, id, w);
    InvIsInvWith(m1);
  }

  lemma WaitingIsWoken(m: Machine, id: TaskId, w: Waker, ops: seq<Op>, v: int)
    requires Inv(m) && WaitsOn(m, id, w)
    requires forall i :: 0 <= i < |ops| ==> LeavesHandle(ops[i], id)
    ensures Run(m, ops).Ok?
    ensures var m' := Run(m, ops).value;
            m'.current == Polling(id) ==> FinishReady(m', v).Ok? && Woken(FinishReady(m', v).value, w)
  {
    RunSafe(m, ops);
    StaysWaiting(m, ops, id, w);
    var m' := Run(m, ops).value;
    if m'.current == Polling(id) {
      CompletionWakes(m', v, w);
    }
  }

  // ----- what the scheduler does not promise -----

  /** Two spawned tasks. */
  function TwoTasks(): Machine {
    Spawn(Spawn(Enter(START).value).value).value
  }

  /** The first task is run, wakes itself while running, and yields. */
  const SELF_WAKE := [OpBeginPoll, OpWakeByRef(TaskWaker(0)), OpFinishPending, OpDropTask]

  function Rounds(n: nat): seq<Op> {
    if n == 0 then [] else SELF_WAKE + Rounds(n - 1)
  }

  lemma {:induction false} RunConcat(m: Machine, a: seq<Op>, b: seq<Op>, id: TaskId)
    requires Run(m, a).Ok?
    ensures Run(m, a + b) == Run(Run(m, a).value, b)
    ensures PolledIn(m, a + b, id) <==> PolledIn(m, a, id) || PolledIn(Run(m, a).value, b, id)
    decreases a
  {
    if a == [] {
      assert a + b == b;
    } else {
      assert (a + b)[1..] == a[1..] + b;
      if Proper(m, a[0]) {
        RunConcat(Step(m, a[0]).value, a[1..], b, id);
      } else {
        RunConcat(m, a[1..], b, id);
      }
    }
  }

  lemma OneStep(m: Machine, op: Op, m': Machine, rest: seq<Op>, id: TaskId)
    requires Proper(m, op) && Step(m, op) == Ok(m')
    ensures Run(m, [op] + rest) == Run(m', rest)
    ensures PolledIn(m, [op] + rest, id) <==> PollsTask(m, op, id) || PolledIn(m', rest, id)
  {
    assert ([op] + rest)[1..] == rest;
  }

  const FRESH := Cell(INITIAL_HEADER, Running, None, History(None, [], None))

  /** The two tasks, the first with the given header. */
  function Pair(h: Header, queue: seq<TaskId>, current: Current): Machine {
    var slots := [Live(FRESH.(header := h)), Live(FRESH)];
    Machine(slots, queue, current, multiset{}, {0, 1}, {}, multiset{}, true, true, false)
  }

  lemma PairStore(h: Header, h': Header, queue: seq<TaskId>, current: Current)
    ensures WithHeader(Pair(h, queue, current), 0, h') == Pair(h', queue, current)
  {
    var m := Pair(h, queue, current);
    assert m.slots[0 := Live(m.slots[0].cell.(header := h'))] == Pair(h', queue, current).slots;
  }

  lemma SelfWakeRound()
    ensures Run(TwoTasks(), SELF_WAKE) == Ok(TwoTasks()) && !PolledIn(TwoTasks(), SELF_WAKE, 1)
  {
    var h0, h1 := INITIAL_HEADER, INITIAL_HEADER.(running := true, notified := false);
    var h2, h3 := INITIAL_HEADER.(running := true), INITIAL_HEADER.(refs := 3);
    var m0, m1 := Pair(h0, [0, 1], NoTask), Pair(h1, [1], Polling(0));
    var m2, m3 := Pair(h2, [1], Polling(0)), Pair(h3, [0, 1], Finishing(0));
    assert TwoTasks() == m0;
    PairStore(h0, h1, [0, 1], NoTask);
    PairStore(h1, h2, [1], Polling(0));
    PairStore(h2, h3, [1], Polling(0));
    PairStore(h3, h0, [0, 1], NoTask);
    assert Step(m0, OpBeginPoll) == Ok(m1);
    assert Step(m1, OpWakeByRef(TaskWaker(0))) == Ok(m2);
    assert Step(m2, OpFinishPending) == Ok(m3) by { assert [0] + [1] == [0, 1]; }
    assert Step(m3, OpDropTask) == Ok(m0);
    OneStep(m3, OpDropTask, m0, [], 1);
    OneStep(m2, OpFinishPending, m3, [OpDropTask], 1);
    OneStep(m1, OpWakeByRef(TaskWaker(0)), m2, [OpFinishPending, OpDropTask], 1);
    OneStep(m0, OpBeginPoll, m1, [OpWakeByRef(TaskWaker(0)), OpFinishPending, OpDropTask], 1);
    assert [OpDropTask] + [] == [OpDropTask];
    assert [OpFinishPending] + [OpDropTask] == [OpFinishPending, OpDropTask];
    assert [OpWakeByRef(TaskWaker(0))] + [OpFinishPending, OpDropTask]
        == [OpWakeByRef(TaskWaker(0)), OpFinishPending, OpDropTask];
    assert [OpBeginPoll] + [OpWakeByRef(TaskWaker(0)), OpFinishPending, OpDropTask] == SELF_WAKE;
  }

  /**
   The queue is not fair: a task that wakes itself goes back to the front, and however many rounds
   are executed the second task, though due, is not polled.
   */
  lemma {:induction false} FrontYieldStarves(n: nat)
    ensures Run(TwoTasks(), Rounds(n)) == Ok(TwoTasks()) && Due(TwoTasks().slots[1])
    ensures !PolledIn(TwoTasks(), Rounds(n), 1)
  {
    if n > 0 {
      SelfWakeRound();
      RunConcat(TwoTasks(), SELF_WAKE, Rounds(n - 1), 1);
      FrontYieldStarves(n - 1);
    }
  }

  // ----- outside of `block_on` -----

  /** One task with a JoinHandle, at some point of a run of it. */
  function Single(h: Header, queue: seq<TaskId>, current: Current, wakers: multiset<TaskId>, entered: bool): Machine {
    Machine([Live(FRESH.(header := h))], queue, current, wakers, {0}, {}, multiset{}, true, entered, false)
  }

  /** The task as `block_on` leaves it: polled once, idle, and with a waker that a driver kept. */
  function Left(): Machine {
    Single(Header(false, false, false, true, false, 2), [], NoTask, multiset{0}, false)
  }

  lemma SpawnSingle()
    ensures Run(START, [OpEnter] + [OpSpawn]) == Ok(Single(INITIAL_HEADER, [0], NoTask, multiset{}, true))
  {
    var m1 := START.(entered := true, shouldPoll := true);
    var slots: seq<Slot> := [];
    assert [] + [0] == [0] && slots + [Live(FRESH)] == [Live(FRESH)];
    var joins: set<TaskId> := {};
    assert joins + {0} == {0};
    OneStep(m1, OpSpawn, Single(INITIAL_HEADER, [0], NoTask, multiset{}, true), [], 0);
    assert [OpSpawn] + [] == [OpSpawn];
    OneStep(START, OpEnter, m1, [OpSpawn], 0);
  }

  lemma SingleStore(h: Header, h': Header, queue: seq<TaskId>, current: Current, wakers: multiset<TaskId>)
    ensures WithHeader(Single(h, queue, current, wakers, true), 0, h') == Single(h', queue, current, wakers, true)
  {
    var m := Single(h, queue, current, wakers, true);
    assert m.slots[0 := Live(m.slots[0].cell.(header := h'))] == Single(h', queue, current, wakers, true).slots;
  }

  /** The task clones its waker and is not woken. */
  lemma PollSingle()
    ensures Run(Single(INITIAL_HEADER, [0], NoTask, multiset{}, true),
                [OpBeginPoll] + ([OpCloneWaker(TaskWaker(0))] + ([OpFinishPending] + ([OpDropTask] + [OpLeave]))))
         == Ok(Left())
  {
    hide WithHeader;
    var running, idle := Header(true, false, false, true, false, 2), Header(false, false, false, true, false, 2);
    var m1 := Single(running, [], Polling(0), multiset{}, true);
    var m2 := Single(running.(refs := 3), [], Polling(0), multiset{0}, true);
    var m3 := Single(idle.(refs := 3), [], Finishing(0), multiset{0}, true);
    var m4 := Single(idle, [], NoTask, multiset{0}, true);
    SingleStore(INITIAL_HEADER, running, [0], NoTask, multiset{});
    SingleStore(running, running.(refs := 3), [], Polling(0), multiset{});
    SingleStore(running.(refs := 3), idle.(refs := 3), [], Polling(0), multiset{0});
    SingleStore(idle.(refs := 3), idle, [], NoTask, multiset{0});
    OneStep(m4, OpLeave, Left(), [], 0);
    assert [OpLeave] + [] == [OpLeave];
    OneStep(m3, OpDropTask, m4, [OpLeave], 0);
    OneStep(m2, OpFinishPending, m3, [OpDropTask] + [OpLeave], 0);
    assert multiset{} + multiset{0} == multiset{0};
    assert Step(m1, OpCloneWaker(TaskWaker(0))) == Ok(m2);
    OneStep(m1, OpCloneWaker(TaskWaker(0)), m2, [OpFinishPending] + ([OpDropTask] + [OpLeave]), 0);
    var m0 := Single(INITIAL_HEADER, [0], NoTask, multiset{}, true);
    assert m0.queue[1..] == [];
    assert Step(m0, OpBeginPoll) == Ok(m1);
    OneStep(m0, OpBeginPoll, m1,
            [OpCloneWaker(TaskWaker(0))] + ([OpFinishPending] + ([OpDropTask] + [OpLeave])), 0);
  }

  lemma StrayWakeFails()
    ensures StrayWake(Left(), 0)
    ensures Enabled(Left(), OpWakeByVal(0)) && Step(Left(), OpWakeByVal(0)) == Fail(NotEntered)
  {}

  lemma StrayOps(poll: seq<Op>)
    requires poll == [OpBeginPoll] + ([OpCloneWaker(TaskWaker(0))] + ([OpFinishPending] + ([OpDropTask] + [OpLeave])))
    ensures [OpEnter] + [OpSpawn] + poll == STRAY
  {}

  const STRAY: seq<Op> :=
    [OpEnter, OpSpawn, OpBeginPoll, OpCloneWaker(TaskWaker(0)), OpFinishPending, OpDropTask, OpLeave]

  /**
   A waker that a driver keeps is enough to reach the panic of a wake where CURRENT is not set: the
   task is polled once and idle when `block_on` returns.
   */
  lemma StrayWakeReached()
    ensures Run(START, STRAY) == Ok(Left()) && StrayWake(Left(), 0)
    ensures Enabled(Left(), OpWakeByVal(0)) && Step(Left(), OpWakeByVal(0)) == Fail(NotEntered)
  {
    StrayWakeFails();
    hide Run, Step, Enabled, StrayWake;
    SpawnSingle();
    PollSingle();
    var poll := [OpBeginPoll] + ([OpCloneWaker(TaskWaker(0))] + ([OpFinishPending] + ([OpDropTask] + [OpLeave])));
    RunConcat(START, [OpEnter] + [OpSpawn], poll, 0);
    StrayOps(poll);
  }
}
