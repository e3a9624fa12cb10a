/**
 The task harness on the heap (`runtime/src/task/harness.rs`, `core.rs`, `waker.rs`, `join.rs`,
 `mod.rs`, `scheduler.rs`).

 Cells are objects whose state word, stage and join waker are overwritten in place. Each method
 performs the source's sequence of updates and is proved to take the step of `TaskMachine` of the
 same name. A method may be called only where that step is no fault; `TaskSafety.StepSafe` shows
 that this is every call owning clients make. `aborted` records the one way out: an overflowing
 reference count ends the process.
 */
module Harness {
  import opened Options
  import opened TaskState
  import M = TaskMachine
  import opened TaskMachine

  class TaskCell {
    const state: State
    var stage: Stage
    var joinWaker: Option<Waker>
    ghost var history: History

    ghost function View(): Cell
      reads this, state
    {
      Cell(state.View(), stage, joinWaker, history)
    }

    constructor ()
      ensures View() == Cell(INITIAL_HEADER, Running, None, History(None, [], None))
      ensures fresh(state)
    {
      state := new State();
      stage := Running;
      joinWaker := None;
      history := History(None, [], None);
    }

    /** Drops the future and puts its output into the stage. */
    method StoreOutput(output: int)
      modifies this
      ensures View() == old(View()).(stage := Finished(output),
                                     history := old(history).(produced := Some(output)))
    {
      stage := Consumed;
      stage := Finished(output);
      history := history.(produced := Some(output));
    }

    /** Empties the stage, dropping or delivering the output found there. */
    method Consume(deliver: bool)
      modifies this
      ensures View() == M.Consume(old(View()), deliver)
    {
      if stage.Finished? {
        ghost var fate := if deliver then Delivered(stage.output) else Dropped(stage.output);
        history := history.(fates := history.fates + [fate]);
      }
      stage := Consumed;
    }
  }

  class Runtime {
    var cells: seq<TaskCell>          // cell addresses, in order of allocation
    ghost var freed: set<TaskId>
    var queue: seq<TaskId>
    var current: Current              // the Task that `block_on` is running
    // What client code owns. Rust's types keep this; here it is written down.
    var wakers: multiset<TaskId>
    var joins: set<TaskId>
    var closing: set<TaskId>
    var dropping: multiset<TaskId>
    var shouldPoll: bool
    var entered: bool                 // CURRENT is set
    var down: bool                    // the runtime is being dropped
    var aborted: bool
    ghost var repr: set<object>       // the objects of this runtime

    ghost predicate Valid()
      reads this, cells
    {
      && this in repr && (forall i :: 0 <= i < |cells| ==> cells[i] in repr && cells[i].state in repr)
      && (forall i :: i in freed ==> i < |cells|)
      && (forall i, j :: 0 <= i < j < |cells| ==> cells[i] != cells[j] && cells[i].state != cells[j].state)
    }

    ghost function SlotView(i: nat): Slot
      requires i < |cells|
      reads this, cells[i], cells[i].state
    {
      if i in freed then Freed(cells[i].history) else Live(cells[i].View())
    }

    ghost function States(): set<object>
      reads this, cells
    {
      set c | c in cells :: c.state
    }

    ghost function View(): Machine
      reads this, cells, States()
    {
      Machine(
        seq(|cells|, i requires 0 <= i < |cells| reads this, cells, States() => SlotView(i)),
        queue, current, wakers, joins, closing, dropping, shouldPoll, entered, down)
    }

    constructor ()
      ensures Valid() && !aborted && View() == START && fresh(repr)
    {
      repr := {this};
      cells, freed, queue, current := [], {}, [], NoTask;
      wakers, joins, closing, dropping := multiset{}, {}, {}, multiset{};
      shouldPoll, aborted, entered, down := true, false, false, false;
    }

    /** Only the cell of task `i` was written, or freed. */
    twostate lemma OnlyCell(i: TaskId)
      requires Valid() && i < |cells| && cells == old(cells) && freed - {i} == old(freed) - {i}
      requires forall k :: 0 <= k < |cells| && k != i ==> unchanged(cells[k]) && unchanged(cells[k].state)
      ensures View().slots == old(View()).slots[i := SlotView(i)]
    {
      assert forall k :: 0 <= k < |cells| && k != i ==> (k in freed <==> k in freed - {i});
      assert forall k :: 0 <= k < |cells| && k != i ==> (k in old(freed) <==> k in old(freed) - {i});
    }

    /** No cell was written. */
    twostate lemma SameCells()
      requires Valid() && cells == old(cells) && freed == old(freed)
      requires forall k :: 0 <= k < |cells| ==> unchanged(cells[k]) && unchanged(cells[k].state)
      ensures View().slots == old(View()).slots
    {}

    /** One cell was added, and none written. */
    twostate lemma OneMoreCell(new cell: TaskCell)
      requires Valid() && old(Valid()) && cells == old(cells) + [cell] && freed == old(freed)
      requires forall k :: 0 <= k < |old(cells)| ==> unchanged(cells[k]) && unchanged(cells[k].state)
      ensures View().slots == old(View()).slots + [Live(cell.View())]
    {
      assert |old(cells)| !in freed;
    }

    // ----- reference counts -----

    method RefInc(id: TaskId)
      requires Valid() && !aborted && M.RefInc(View(), id).Ok?
      modifies this`aborted, cells[id].state
      ensures Valid()
      ensures !aborted ==> View() == M.RefInc(old(View()), id).value
    {
      var abort := cells[id].state.RefInc();
      if abort { aborted := true; return; }
      OnlyCell(id);
    }

    /** A stored waker is dropped: its destructor has yet to release its reference. */
    method Discard(w: Option<Waker>)
      modifies this`dropping
      ensures dropping == old(dropping) + OwnedBy(w)
    {
      if w.Some? && w.value.TaskWaker? {
        dropping := dropping + multiset{w.value.task};
      } else {
        assert dropping + multiset{} == dropping;
      }
    }

    /** Frees the box. The stored join waker is left for its destructor to release. */
    method Dealloc(id: TaskId)
      requires Valid() && IsLive(View(), id)
      modifies this`dropping, this`freed, cells[id]
      ensures Valid()
      ensures View() == M.Dealloc(old(View()), id)
    {
      var cell := cells[id];
      cell.Consume(false);
      freed := freed + {id};
      Discard(cell.joinWaker);
      OnlyCell(id);
    }

    method DropReference(id: TaskId)
      requires Valid() && M.DropReference(View(), id).Ok?
      modifies this`dropping, this`freed, cells[id], cells[id].state
      ensures Valid()
      ensures View() == M.DropReference(old(View()), id).value
    {
      var last := cells[id].state.RefDec();
      OnlyCell(id);
      if last {
        ghost var before := View();
        Dealloc(id);
        assert View().slots == old(View()).slots[id := View().slots[id]];
      }
    }

    // ----- the run queue -----

    method Schedule(id: TaskId)
      modifies this`queue
      ensures queue == old(queue) + [id]
    {
      queue := queue + [id];
    }

    method YieldNow(id: TaskId)
      modifies this`queue
      ensures queue == [id] + old(queue)
    {
      queue := [id] + queue;
    }

    method Pop() returns (task: Option<TaskId>)
      modifies this`queue
      ensures old(queue) == [] ==> task.None? && queue == []
      ensures old(queue) != [] ==> task == Some(old(queue)[0]) && queue == old(queue)[1..]
    {
      if queue == [] { return None; }
      task := Some(queue[0]);
      queue := queue[1..];
    }

    // ----- wakers -----

    method CloneWaker(w: Waker)
      requires Valid() && !aborted && M.CloneWaker(View(), w).Ok?
      modifies this`aborted, if w.TaskWaker? then {cells[w.task].state} else {}
      ensures Valid()
      ensures !aborted ==> View() == M.CloneWaker(old(View()), w).value
    {
      if w.TaskWaker? {
        RefInc(w.task);
      }
    }

    method WakeByRef(w: Waker)
      requires Valid() && !aborted && M.WakeByRef(View(), w).Ok?
      modifies this`aborted, this`queue, this`shouldPoll, if w.TaskWaker? then {cells[w.task].state} else {}
      ensures Valid()
      ensures !aborted ==> View() == M.WakeByRef(old(View()), w).value
    {
      match w {
        case MainWaker => shouldPoll := true;
        case ForeignWaker(_) =>
        case TaskWaker(id) =>
          var cell := cells[id];
          if !entered {
            // The thread has no current runtime, so the task counts as remote.
            var done := cell.state.TransitionToNotifiedWithoutSubmit();
            OnlyCell(id);
            return;
          }
          var action := cell.state.TransitionToNotified();
          if action == Submit {
            var abort := cell.state.RefInc();
            if abort { aborted := true; return; }
            Schedule(id);
          }
          OnlyCell(id);
      }
    }

    method WakeByVal(id: TaskId)
      requires Valid() && M.WakeByVal(View(), id).Ok?
      modifies this`queue, this`dropping, this`freed, cells[id], cells[id].state
      ensures Valid()
      ensures View() == M.WakeByVal(old(View()), id).value
    {
      if !entered {
        var done := cells[id].state.TransitionToNotifiedWithoutSubmit();
        OnlyCell(id);
        DropReference(id);
        return;
      }
      var action := cells[id].state.TransitionToNotified();
      OnlyCell(id);
      if action == Submit {
        Schedule(id);
      } else {
        DropReference(id);
      }
    }

    // The vtable entries of an owned waker.

    method CloneOwned(w: Waker)
      requires Valid() && !aborted && Enabled(View(), OpCloneWaker(w)) && Step(View(), OpCloneWaker(w)).Ok?
      modifies this`aborted, this`wakers, States()
      ensures Valid()
      ensures !aborted ==> Step(old(View()), OpCloneWaker(w)) == Ok(View())
    {
      CloneWaker(w);
      if !aborted && w.TaskWaker? {
        ghost var counted := View();
        wakers := wakers + multiset{w.task};
        assert View().slots == counted.slots;
      }
    }

    method DropOwned(id: TaskId)
      requires Valid() && Enabled(View(), OpDropWaker(id)) && Step(View(), OpDropWaker(id)).Ok?
      modifies this`wakers, this`dropping, this`freed, cells, States()
      ensures Valid()
      ensures Step(old(View()), OpDropWaker(id)) == Ok(View())
    {
      wakers := wakers - multiset{id};
      SameCells();
      DropReference(id);
    }

    method WakeOwned(id: TaskId)
      requires Valid() && Enabled(View(), OpWakeByVal(id)) && Step(View(), OpWakeByVal(id)).Ok?
      modifies this`wakers, this`queue, this`dropping, this`freed, cells, States()
      ensures Valid()
      ensures Step(old(View()), OpWakeByVal(id)) == Ok(View())
    {
      wakers := wakers - multiset{id};
      SameCells();
      WakeByVal(id);
    }

    // ----- running a task -----

    method Spawn() returns (id: TaskId)
      requires Valid() && M.Spawn(View()).Ok?
      modifies this`cells, this`queue, this`joins, this`repr
      ensures Valid() && id == |old(cells)| && fresh(repr - old(repr))
      ensures M.Spawn(old(View())) == Ok(View())
    {
      id := |cells|;
      var cell := new TaskCell();
      cells := cells + [cell];
      repr := repr + {cell, cell.state};
      joins := joins + {id};
      Schedule(id);
      OneMoreCell(cell);
    }

    /** Takes the next Task from the queue: `transition_to_running`, and the future is about to run. */
    method BeginPoll() returns (id: TaskId)
      requires Valid() && queue != [] && M.BeginPoll(View()).Ok?
      modifies this`queue, this`current, cells[queue[0]].state
      ensures Valid() && current == Polling(id)
      ensures View() == M.BeginPoll(old(View())).value
    {
      var popped := Pop();
      id := popped.value;
      cells[id].state.TransitionToRunning();
      current := Polling(id);
      OnlyCell(id);
    }

    /** The poll returned Pending: `transition_to_idle`, and yield if the task was woken meanwhile. */
    method FinishPending(id: TaskId)
      requires Valid() && !aborted && current == Polling(id) && M.FinishPending(View()).Ok?
      modifies this`queue, this`current, this`aborted, cells[id].state
      ensures Valid()
      ensures !aborted ==> View() == M.FinishPending(old(View())).value
    {
      var cell := cells[id];
      var action := cell.state.TransitionToIdle();
      current := Finishing(id);
      if action == IdledNotified {
        var abort := cell.state.RefInc();
        if abort { aborted := true; return; }
        YieldNow(id);
      }
      OnlyCell(id);
    }

    /** The poll returned Ready: store the output, then `complete`. */
    method FinishReady(id: TaskId, output: int)
      requires Valid() && !aborted && current == Polling(id) && M.FinishReady(View(), output).Ok?
      modifies this`queue, this`current, this`aborted, this`shouldPoll, cells, States()
      ensures Valid()
      ensures !aborted ==> View() == M.FinishReady(old(View()), output).value
    {
      var cell := cells[id];
      cell.StoreOutput(output);
      var snapshot := cell.state.TransitionToComplete();
      current := Finishing(id);
      if snapshot & JOIN_INTEREST != JOIN_INTEREST {
        cell.Consume(false);
        OnlyCell(id);
      } else {
        OnlyCell(id);
        if snapshot & JOIN_WAKER == JOIN_WAKER {
          WakeByRef(cell.joinWaker.value);
        }
      }
    }

    /** The Task handed to `run` goes out of scope. */
    method DropTask(id: TaskId)
      requires Valid() && current == Finishing(id) && M.DropTask(View()).Ok?
      modifies this`current, this`dropping, this`freed, cells[id], cells[id].state
      ensures Valid()
      ensures View() == M.DropTask(old(View())).value
    {
      current := NoTask;
      SameCells();
      DropReference(id);
    }

    // ----- the JoinHandle -----

    method SetJoinWaker(id: TaskId, w: Waker)
      requires Valid() && !aborted && M.SetJoinWaker(View(), id, w).Ok? && !View().slots[id].cell.header.complete
      modifies this`aborted, this`dropping, cells[id], States()
      ensures Valid()
      ensures !aborted ==> View() == M.SetJoinWaker(old(View()), id, w).value
    {
      var cell := cells[id];
      CloneWaker(w);
      if aborted { return; }
      StoreJoinWaker(id, w);
    }

    /** Overwrites the trailer's waker, dropping the old one, and sets the flag. */
    method StoreJoinWaker(id: TaskId, w: Waker)
      requires Valid() && IsLive(View(), id)
      requires var h := View().slots[id].cell.header; h.joinInterest && !h.joinWaker && !h.complete
      modifies this`dropping, cells[id], cells[id].state
      ensures Valid()
      ensures var c := old(View()).slots[id].cell;
              View() == M.Store(old(View()), id, c.(header := c.header.(joinWaker := true),
                                                  joinWaker := Some(w),
                                                  history := c.history.(registered := Some(w))))
                        .(dropping := old(dropping) + OwnedBy(c.joinWaker))
    {
      var cell := cells[id];
      Discard(cell.joinWaker);
      cell.joinWaker := Some(w);
      cell.history := cell.history.(registered := Some(w));
      var ok := cell.state.SetWakerBit();
      OnlyCell(id);
    }

    /** `JoinHandle::poll`: register the waker, or take the output. */
    method PollJoin(id: TaskId, w: Waker) returns (poll: Poll)
      requires Valid() && !aborted && M.PollJoin(View(), id, w).Ok?
      modifies this`aborted, this`dropping, cells[id], States()
      ensures Valid()
      ensures !aborted ==> (View(), poll) == M.PollJoin(old(View()), id, w).value
    {
      var cell := cells[id];
      var snapshot := cell.state.word;
      if snapshot & COMPLETE == COMPLETE {
        poll := Ready(cell.stage.output);
        cell.Consume(true);
        OnlyCell(id);
        return;
      }
      poll := Pending;
      if snapshot & JOIN_WAKER == JOIN_WAKER {
        if cell.joinWaker.value == w {
          cell.history := cell.history.(registered := Some(w));
          OnlyCell(id);
          return;
        }
        var ok := cell.state.UnsetWakerBit();
        cell.history := cell.history.(registered := None);
        OnlyCell(id);
      }
      SetJoinWaker(id, w);
    }

    /** `JoinHandle::drop`, fast path or slow, up to the release of its reference. */
    method DropJoin(id: TaskId)
      requires Valid() && M.DropJoin(View(), id).Ok?
      modifies this`joins, this`closing, cells[id], cells[id].state
      ensures Valid()
      ensures View() == M.DropJoin(old(View()), id).value
    {
      var cell := cells[id];
      var fast := cell.state.DropJoinHandleFast();
      joins := joins - {id};
      if !fast {
        closing := closing + {id};
        var ok := cell.state.UnsetJoinInterested();
        if !ok { cell.Consume(false); }
      }
      OnlyCell(id);
    }

    /** The rest of `drop_join_handle_slow`. */
    method CloseJoin(id: TaskId)
      requires Valid() && M.DropReference(View().(closing := closing - {id}), id).Ok?
      modifies this`closing, this`dropping, this`freed, cells[id], cells[id].state
      ensures Valid()
      ensures View() == M.DropReference(old(View()).(closing := old(closing) - {id}), id).value
    {
      closing := closing - {id};
      SameCells();
      DropReference(id);
    }

    /** The destructor of a waker that was stored in a freed cell, or replaced there. */
    method Release(id: TaskId)
      requires Valid() && id in dropping
      requires M.DropReference(View().(dropping := dropping - multiset{id}), id).Ok?
      modifies this`dropping, this`freed, cells[id], cells[id].state
      ensures Valid()
      ensures View() == M.DropReference(old(View()).(dropping := old(dropping) - multiset{id}), id).value
    {
      dropping := dropping - multiset{id};
      SameCells();
      DropReference(id);
    }

    // ----- the runtime around the tasks -----

    /** `block_on` sets CURRENT and the flag of the main future. */
    method Enter()
      requires Valid() && M.Enter(View()).Ok?
      modifies this`entered, this`shouldPoll
      ensures Valid() && M.Enter(old(View())) == Ok(View())
    {
      entered := true;
      shouldPoll := true;
      assert View().slots == old(View()).slots;
    }

    method Leave()
      requires Valid()
      modifies this`entered
      ensures Valid() && View() == old(View()).(entered := false)
    {
      entered := false;
      assert View().slots == old(View()).slots;
    }

    /** `should_poll` replaces the flag by false. */
    method ShouldPoll() returns (woken: bool)
      requires Valid()
      modifies this`shouldPoll
      ensures Valid() && woken == old(shouldPoll) && View() == old(View()).(shouldPoll := false)
    {
      woken := shouldPoll;
      shouldPoll := false;
      assert View().slots == old(View()).slots;
    }

    method Shutdown()
      requires Valid()
      modifies this`down
      ensures Valid() && View() == old(View()).(down := true)
    {
      down := true;
      assert View().slots == old(View()).slots;
    }

    /** One turn of the loop in `Drop for TaskQueue`. */
    method DropQueued()
      requires Valid() && queue != [] && M.DropQueued(View()).Ok?
      modifies this`queue, this`dropping, this`freed, cells[queue[0]], cells[queue[0]].state
      ensures Valid() && M.DropQueued(old(View())) == Ok(View())
    {
      var task := Pop();
      assert View().slots == old(View()).slots;
      DropReference(task.value);
    }
  }
}
