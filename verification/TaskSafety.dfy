/**
 What holds in every reachable state of the task machine, and what follows from it.
 */
module TaskSafety {
  import opened Options
  import opened TaskState
  import opened TaskMachine

  // ----- who owns a reference -----

  function Holds(s: Slot, id: TaskId): nat {
    if s.Live? && s.cell.joinWaker == Some(TaskWaker(id)) then 1 else 0
  }

  /** How many live cells store a join waker of task `id`. */
  function Stored(slots: seq<Slot>, id: TaskId): nat {
    if slots == [] then 0
    else Stored(slots[..|slots| - 1], id) + Holds(slots[|slots| - 1], id)
  }

  function One(b: bool): nat {
    if b then 1 else 0
  }

  /** The references to `id` held outside the cells. */
  function Loose(m: Machine, id: TaskId): nat {
    multiset(m.queue)[id] + m.wakers[id] + m.dropping[id]
    + One(m.current == Polling(id) || m.current == Finishing(id))
    + One(id in m.joins) + One(id in m.closing)
  }

  /** The references to `id` that exist, each counted where it lives. */
  function Owners(m: Machine, id: TaskId): nat {
    Loose(m, id) + Stored(m.slots, id)
  }

  function Refs(m: Machine, id: TaskId): nat {
    if IsLive(m, id) then m.slots[id].cell.header.refs else 0
  }

  /** A cell's count is the number of its owners; a cell without owners is freed. */
  ghost predicate Counted(m: Machine) {
    && (forall id: TaskId :: Owners(m, id) == Refs(m, id))
    && (forall id: TaskId :: IsLive(m, id) ==> m.slots[id].cell.header.refs >= 1)
  }

  // ----- the run queue -----

  predicate Waiting(h: Header) {
    h.notified && h.Idle()
  }

  /** How often a task may be in the queue; a queue that is being dropped is only partly there. */
  predicate Queued(n: nat, h: Header, down: bool) {
    if down then n <= One(Waiting(h)) else n == One(Waiting(h))
  }

  /** Exactly the notified idle tasks are in the run queue, once each, until it is dropped. */
  ghost predicate Scheduled(m: Machine) {
    && (forall id: TaskId :: IsLive(m, id) ==>
          Queued(multiset(m.queue)[id], m.slots[id].cell.header, m.down))
    && (forall id: TaskId :: IsLive(m, id) ==>
          (m.slots[id].cell.header.running <==> m.current == Polling(id)))
    && (m.entered || m.current.NoTask?) && !(m.entered && m.down)
  }

  // ----- one cell -----

  /** The output was stored once and went to exactly one place. */
  predicate Settled(h: History) {
    h.produced.Some? && |h.fates| == 1
    && (h.fates[0] == Delivered(h.produced.value) || h.fates[0] == Dropped(h.produced.value))
  }

  predicate CellOk(c: Cell, joined: bool) {
    var h := c.header;
    && !(h.running && h.complete)
    && (joined ==> h.joinInterest)
    && (h.joinWaker ==> c.joinWaker.Some?)
    && (!h.complete ==>
          && c.stage == Running && c.history.produced.None? && c.history.fates == []
          && (h.joinInterest ==> joined)
          && (joined ==> (h.joinWaker <==> c.history.registered.Some?))
          && (joined && h.joinWaker ==> c.joinWaker == c.history.registered))
    && (h.complete ==>
          match c.stage
          case Running => false
          case Finished(v) => joined && c.history.produced == Some(v) && c.history.fates == []
          case Consumed => Settled(c.history) && (joined ==> c.history.fates[0].Delivered?))
  }

  predicate FreedOk(h: History) {
    (h.produced.None? && h.fates == []) || Settled(h)
  }

  ghost predicate CellsOk(m: Machine) {
    && (forall id: TaskId :: IsLive(m, id) ==> CellOk(m.slots[id].cell, id in m.joins))
    && (forall id: TaskId :: id < |m.slots| && m.slots[id].Freed? ==> FreedOk(m.slots[id].history))
    && m.joins !! m.closing
  }

  ghost predicate Inv(m: Machine) {
    Counted(m) && Scheduled(m) && CellsOk(m)
  }

  // ----- counting stored wakers -----

  lemma {:induction false} StoredUpdate(slots: seq<Slot>, i: nat, s: Slot, id: TaskId)
    requires i < |slots|
    ensures Stored(slots[i := s], id) + Holds(slots[i], id) == Stored(slots, id) + Holds(s, id)
  {
    var n := |slots| - 1;
    var slots' := slots[i := s];
    if i < n {
      StoredUpdate(slots[..n], i, s, id);
      assert slots'[..n] == slots[..n][i := s];
    } else {
      assert slots'[..n] == slots[..n];
    }
  }

  lemma StoredAppend(slots: seq<Slot>, s: Slot, id: TaskId)
    ensures Stored(slots + [s], id) == Stored(slots, id) + Holds(s, id)
  {
    assert (slots + [s])[..|slots|] == slots;
  }

  /** `Stored` after one slot changes, for every task at once. */
  lemma StoredUpdateAll(slots: seq<Slot>, i: nat, s: Slot)
    requires i < |slots|
    ensures forall id: TaskId ::
      Stored(slots[i := s], id) + Holds(slots[i], id) == Stored(slots, id) + Holds(s, id)
  {
    forall id: TaskId
      ensures Stored(slots[i := s], id) + Holds(slots[i], id) == Stored(slots, id) + Holds(s, id)
    {
      StoredUpdate(slots, i, s, id);
    }
  }

  lemma OwnedByCount(w: Option<Waker>, id: TaskId)
    ensures OwnedBy(w)[id] == One(w == Some(TaskWaker(id)))
  {}

  // ----- references in flight -----

  /** `Counted`, with `spare` references held by the step being executed. */
  ghost predicate CountedWith(m: Machine, spare: multiset<TaskId>) {
    && (forall id: TaskId :: Owners(m, id) + spare[id] == Refs(m, id))
    && (forall id: TaskId :: IsLive(m, id) ==> m.slots[id].cell.header.refs >= 1)
  }

  ghost predicate InvWith(m: Machine, spare: multiset<TaskId>) {
    CountedWith(m, spare) && Scheduled(m) && CellsOk(m)
  }

  lemma InvIsInvWith(m: Machine)
    ensures Inv(m) <==> InvWith(m, multiset{})
  {
    var none: multiset<TaskId> := multiset{};
    assert forall id: TaskId :: none[id] == 0;
  }

  lemma SpareIsLive(m: Machine, spare: multiset<TaskId>, id: TaskId)
    requires CountedWith(m, spare) && Owners(m, id) + spare[id] >= 1
    ensures IsLive(m, id)
  {}

  /** One slot and the loose references change; everything that counts them is adjusted to match. */
  lemma SlotCounted(m: Machine, spare: multiset<TaskId>, i: TaskId, s: Slot, m': Machine, spare': multiset<TaskId>)
    requires CountedWith(m, spare) && i < |m.slots| && m'.slots == m.slots[i := s]
    requires forall id: TaskId ::
      Loose(m', id) + spare'[id] + Holds(s, id) + (if id == i then Refs(m, i) else 0)
      == Loose(m, id) + spare[id] + Holds(m.slots[i], id) + (if id == i then Refs(m', i) else 0)
    requires s.Live? ==> s.cell.header.refs >= 1
    ensures CountedWith(m', spare')
  {
    StoredUpdateAll(m.slots, i, s);
    forall id: TaskId
      ensures Owners(m', id) + spare'[id] == Refs(m', id)
    {
      assert Owners(m, id) + spare[id] == Refs(m, id);
      if id != i { assert Refs(m', id) == Refs(m, id); }
    }
  }

  /** Only task `i` is treated differently by the queue, the current task and the join handles. */
  ghost predicate SameOutside(m: Machine, m': Machine, i: TaskId) {
    && (forall k: TaskId :: k != i ==> multiset(m'.queue)[k] == multiset(m.queue)[k])
    && (forall k: TaskId :: k != i ==> (m'.current == Polling(k) <==> m.current == Polling(k)))
    && (forall k: TaskId :: k != i ==> (k in m'.joins <==> k in m.joins))
    && m'.joins !! m'.closing
  }

  ghost predicate SameRuntime(m: Machine, m': Machine) {
    m'.entered == m.entered && m'.down == m.down && (m'.entered || m'.current.NoTask?)
  }

  lemma SlotScheduled(m: Machine, i: TaskId, c: Cell, m': Machine)
    requires Scheduled(m) && IsLive(m, i) && m'.slots == m.slots[i := Live(c)] && SameOutside(m, m', i)
    requires SameRuntime(m, m') && Queued(multiset(m'.queue)[i], c.header, m'.down)
    requires c.header.running <==> m'.current == Polling(i)
    ensures Scheduled(m')
  {
    assert forall k: TaskId :: k != i && IsLive(m', k) ==> IsLive(m, k) && m'.slots[k] == m.slots[k];
  }

  lemma SlotCells(m: Machine, i: TaskId, c: Cell, m': Machine)
    requires CellsOk(m) && IsLive(m, i) && m'.slots == m.slots[i := Live(c)] && SameOutside(m, m', i)
    requires CellOk(c, i in m'.joins)
    ensures CellsOk(m')
  {
    assert forall k: TaskId :: k != i && IsLive(m', k) ==> IsLive(m, k) && m'.slots[k] == m.slots[k];
  }

  /** The proof obligation of a step that rewrites the cell of task `i`. */
  lemma CellInv(m: Machine, spare: multiset<TaskId>, i: TaskId, c: Cell, m': Machine, spare': multiset<TaskId>)
    requires InvWith(m, spare) && IsLive(m, i) && m'.slots == m.slots[i := Live(c)]
    requires forall id: TaskId ::
      Loose(m', id) + spare'[id] + Holds(Live(c), id) + (if id == i then m.slots[i].cell.header.refs else 0)
      == Loose(m, id) + spare[id] + Holds(m.slots[i], id) + (if id == i then c.header.refs else 0)
    requires c.header.refs >= 1
    requires SameOutside(m, m', i) && SameRuntime(m, m')
    requires Queued(multiset(m'.queue)[i], c.header, m'.down)
    requires c.header.running <==> m'.current == Polling(i)
    requires CellOk(c, i in m'.joins)
    ensures InvWith(m', spare')
  {
    SlotCounted(m, spare, i, Live(c), m', spare');
    SlotScheduled(m, i, c, m');
    SlotCells(m, i, c, m');
  }

  /** What the invariant says of one live task. */
  lemma CellFacts(m: Machine, spare: multiset<TaskId>, id: TaskId)
    requires InvWith(m, spare) && IsLive(m, id)
    ensures CellOk(m.slots[id].cell, id in m.joins)
    ensures Queued(multiset(m.queue)[id], m.slots[id].cell.header, m.down)
    ensures (m.entered || m.current.NoTask?) && !(m.entered && m.down)
    ensures m.slots[id].cell.header.running <==> m.current == Polling(id)
    ensures m.slots[id].cell.header.refs >= 1
    ensures m.joins !! m.closing
  {}

  lemma RefIncInv(m: Machine, spare: multiset<TaskId>, id: TaskId)
    requires InvWith(m, spare) && IsLive(m, id)
    ensures RefInc(m, id).Ok? && InvWith(RefInc(m, id).value, spare + multiset{id})
  {
    CellFacts(m, spare, id);
    var m' := RefInc(m, id).value;
    CellInv(m, spare, id, m'.slots[id].cell, m', spare + multiset{id});
  }

  lemma FreeCounted(m: Machine, spare: multiset<TaskId>, id: TaskId, h: History)
    requires CountedWith(m, spare) && spare[id] >= 1
    requires IsLive(m, id) && m.slots[id].cell.header.refs == 1
    ensures CountedWith(
      m.(slots := m.slots[id := Freed(h)], dropping := m.dropping + OwnedBy(m.slots[id].cell.joinWaker)),
      spare - multiset{id})
    ensures Owners(m, id) == 0
  {
    var w := m.slots[id].cell.joinWaker;
    var m' := m.(slots := m.slots[id := Freed(h)], dropping := m.dropping + OwnedBy(w));
    forall k: TaskId { OwnedByCount(w, k); }
    SlotCounted(m, spare, id, Freed(h), m', spare - multiset{id});
  }

  /** The part of the invariant that survives the run queue being torn down. */
  ghost predicate Accounted(m: Machine, spare: multiset<TaskId>) {
    CountedWith(m, spare) && CellsOk(m)
  }

  lemma FreeAccounted(m: Machine, spare: multiset<TaskId>, id: TaskId)
    requires Accounted(m, spare) && spare[id] >= 1
    requires IsLive(m, id) && m.slots[id].cell.header.refs == 1
    ensures Accounted(Dealloc(m, id), spare - multiset{id})
    ensures multiset(m.queue)[id] == 0
  {
    FreeCounted(m, spare, id, Consume(m.slots[id].cell, false).history);
    assert id !in m.joins && multiset(m.queue)[id] == 0;
    assert FreedOk(Consume(m.slots[id].cell, false).history);
    var m' := Dealloc(m, id);
    assert forall k: TaskId :: IsLive(m', k) ==> IsLive(m, k) && m'.slots[k] == m.slots[k];
  }

  lemma DecAccounted(m: Machine, spare: multiset<TaskId>, id: TaskId)
    requires Accounted(m, spare) && spare[id] >= 1
    requires IsLive(m, id) && m.slots[id].cell.header.refs > 1
    ensures Accounted(
      WithHeader(m, id, m.slots[id].cell.header.(refs := m.slots[id].cell.header.refs - 1)),
      spare - multiset{id})
  {
    var c := m.slots[id].cell.(header := m.slots[id].cell.header.(refs := m.slots[id].cell.header.refs - 1));
    var m' := Store(m, id, c);
    SlotCounted(m, spare, id, Live(c), m', spare - multiset{id});
    SlotCells(m, id, c, m');
  }

  /** Dropping one reference that exists keeps the accounts; the last one frees the cell. */
  lemma DropAccounted(m: Machine, spare: multiset<TaskId>, id: TaskId)
    requires Accounted(m, spare) && spare[id] >= 1
    ensures DropReference(m, id).Ok? && Accounted(DropReference(m, id).value, spare - multiset{id})
  {
    hide CountedWith, CellsOk;
    SpareIsLive(m, spare, id);
    LiveHasReference(m, spare, id);
    if m.slots[id].cell.header.refs == 1 {
      FreeAccounted(m, spare, id);
    } else {
      DecAccounted(m, spare, id);
    }
  }

  lemma LiveHasReference(m: Machine, spare: multiset<TaskId>, id: TaskId)
    requires CountedWith(m, spare) && IsLive(m, id)
    ensures m.slots[id].cell.header.refs >= 1
  {}

  lemma DropInv(m: Machine, spare: multiset<TaskId>, id: TaskId)
    requires InvWith(m, spare) && spare[id] >= 1
    ensures DropReference(m, id).Ok? && InvWith(DropReference(m, id).value, spare - multiset{id})
  {
    SpareIsLive(m, spare, id);
    DropAccounted(m, spare, id);
    DropScheduled(m, id);
  }

  lemma DropScheduled(m: Machine, id: TaskId)
    requires Scheduled(m) && DropReference(m, id).Ok?
    ensures Scheduled(DropReference(m, id).value)
  {
    var m' := DropReference(m, id).value;
    assert forall k: TaskId :: k != id && IsLive(m', k) ==> m'.slots[k] == m.slots[k];
  }

  // ----- every step keeps the invariant and meets no fault -----

  lemma SpawnOwners(m: Machine, k: TaskId)
    requires m.entered
    ensures Owners(Spawn(m).value, k) == Owners(m, k) + (if k == |m.slots| then One(k !in m.joins) + 1 else 0)
  {
    PushCount(m.queue, |m.slots|);
    StoredAppend(m.slots, Spawn(m).value.slots[|m.slots|], k);
  }

  lemma SpawnCounted(m: Machine)
    requires CountedWith(m, multiset{}) && m.entered
    ensures CountedWith(Spawn(m).value, multiset{})
    ensures Owners(m, |m.slots|) == 0
  {
    var m' := Spawn(m).value;
    var n := |m.slots|;
    assert Owners(m, n) == 0;
    forall k: TaskId
      ensures Owners(m', k) == Refs(m', k)
    {
      SpawnOwners(m, k);
      assert Owners(m, k) == Refs(m, k);
      assert k != n ==> Refs(m', k) == Refs(m, k);
    }
  }

  lemma SpawnInv(m: Machine)
    requires InvWith(m, multiset{}) && m.entered
    ensures InvWith(Spawn(m).value, multiset{})
  {
    SpawnCounted(m);
    SpawnScheduled(m);
    SpawnCells(m);
  }

  lemma SpawnScheduled(m: Machine)
    requires Scheduled(m) && Owners(m, |m.slots|) == 0 && m.entered
    ensures Scheduled(Spawn(m).value)
  {
    var m' := Spawn(m).value;
    PushCount(m.queue, |m.slots|);
    assert forall k: TaskId :: k != |m.slots| && k < |m'.slots| ==> m'.slots[k] == m.slots[k];
  }

  lemma SpawnCells(m: Machine)
    requires CellsOk(m) && Owners(m, |m.slots|) == 0 && m.entered
    ensures CellsOk(Spawn(m).value)
  {
    var m' := Spawn(m).value;
    assert forall k: TaskId :: k != |m.slots| && k < |m'.slots| ==> m'.slots[k] == m.slots[k];
  }

  lemma PushCount(queue: seq<TaskId>, id: TaskId)
    ensures multiset(queue + [id]) == multiset(queue) + multiset{id}
    ensures multiset([id] + queue) == multiset(queue) + multiset{id}
  {
    assert multiset([id] + queue) == multiset{id} + multiset(queue);
  }

  /** Recording a wake that needs no submission. */
  lemma NotifyInv(m: Machine, spare: multiset<TaskId>, id: TaskId)
    requires InvWith(m, spare) && IsLive(m, id)
    requires !(m.slots[id].cell.header.Idle() && !m.slots[id].cell.header.notified)
    ensures InvWith(WithHeader(m, id, m.slots[id].cell.header.Notify()), spare)
  {
    CellFacts(m, spare, id);
    var m' := WithHeader(m, id, m.slots[id].cell.header.Notify());
    CellInv(m, spare, id, m'.slots[id].cell, m', spare);
  }

  /** Notifying an idle task and queueing it, with a reference that was held for it. */
  lemma SubmitInv(m: Machine, spare: multiset<TaskId>, id: TaskId)
    requires InvWith(m, spare) && spare[id] >= 1 && IsLive(m, id) && m.entered
    requires m.slots[id].cell.header.Idle() && !m.slots[id].cell.header.notified
    ensures InvWith(
      WithHeader(m, id, m.slots[id].cell.header.Notify()).(queue := m.queue + [id]),
      spare - multiset{id})
  {
    CellFacts(m, spare, id);
    PushCount(m.queue, id);
    var m' := WithHeader(m, id, m.slots[id].cell.header.Notify()).(queue := m.queue + [id]);
    CellInv(m, spare, id, m'.slots[id].cell, m', spare - multiset{id});
  }

  /** A new reference to an idle task goes into the queue, at whichever end. */
  lemma EnqueueInv(m: Machine, spare: multiset<TaskId>, id: TaskId, queue: seq<TaskId>, m': Machine)
    requires InvWith(m, spare) && IsLive(m, id) && m.entered && !Waiting(m.slots[id].cell.header)
    requires !m.slots[id].cell.header.complete
    requires multiset(queue) == multiset(m.queue) + multiset{id}
    requires m'.current == m.current || (m.current == Polling(id) && m'.current == Finishing(id))
    requires m'.current != Polling(id)
    requires var h := m.slots[id].cell.header;
             m' == WithHeader(m, id, h.(running := false, notified := true, refs := h.refs + 1))
                     .(queue := queue, current := m'.current)
    ensures InvWith(m', spare)
  {
    CellFacts(m, spare, id);
    CellInv(m, spare, id, m'.slots[id].cell, m', spare);
  }

  /** Waking the task does not need CURRENT, or CURRENT is set. */
  predicate MayWake(m: Machine, id: TaskId) {
    IsLive(m, id) ==> m.entered || !Submits(m.slots[id].cell.header)
  }

  lemma WakeByRefInv(m: Machine, spare: multiset<TaskId>, w: Waker)
    requires InvWith(m, spare) && (w.TaskWaker? ==> IsLive(m, w.task) && MayWake(m, w.task))
    ensures WakeByRef(m, w).Ok? && InvWith(WakeByRef(m, w).value, spare)
  {
    if w.TaskWaker? {
      var id := w.task;
      var h := m.slots[id].cell.header;
      if h.Idle() && !h.notified {
        WakeSubmitsInv(m, spare, id);
      } else {
        NotifyInv(m, spare, id);
      }
      hide InvWith;
    }
  }

  lemma WakeSubmitsInv(m: Machine, spare: multiset<TaskId>, id: TaskId)
    requires InvWith(m, spare) && IsLive(m, id) && m.entered && Submits(m.slots[id].cell.header)
    ensures WakeByRef(m, TaskWaker(id)).Ok? && InvWith(WakeByRef(m, TaskWaker(id)).value, spare)
  {
    CellFacts(m, spare, id);
    PushCount(m.queue, id);
    EnqueueInv(m, spare, id, m.queue + [id], WakeByRef(m, TaskWaker(id)).value);
    hide InvWith;
  }

  lemma WakeByValInv(m: Machine, spare: multiset<TaskId>, id: TaskId)
    requires InvWith(m, spare) && spare[id] >= 1 && MayWake(m, id)
    ensures WakeByVal(m, id).Ok? && InvWith(WakeByVal(m, id).value, spare - multiset{id})
  {
    SpareIsLive(m, spare, id);
    var h := m.slots[id].cell.header;
    if h.Idle() && !h.notified {
      SubmitInv(m, spare, id);
    } else {
      NotifyInv(m, spare, id);
      DropInv(WithHeader(m, id, h.Notify()), spare, id);
    }
  }

  lemma BeginPollInv(m: Machine, spare: multiset<TaskId>)
    requires InvWith(m, spare) && m.entered && m.current.NoTask? && m.queue != []
    ensures BeginPoll(m).Ok? && InvWith(BeginPoll(m).value, spare)
  {
    var id := m.queue[0];
    assert m.queue == [id] + m.queue[1..];
    assert multiset(m.queue) == multiset{id} + multiset(m.queue[1..]);
    SpareIsLive(m, spare, id);
    CellFacts(m, spare, id);
    var m' := BeginPoll(m).value;
    CellInv(m, spare, id, m'.slots[id].cell, m', spare);
  }

  lemma PauseInv(m: Machine, spare: multiset<TaskId>)
    requires InvWith(m, spare) && m.current.Polling? && IsLive(m, m.current.task)
    requires !m.slots[m.current.task].cell.header.notified
    ensures var id := m.current.task;
            InvWith(WithHeader(m, id, m.slots[id].cell.header.(running := false)).(current := Finishing(id)), spare)
  {
    var id := m.current.task;
    CellFacts(m, spare, id);
    var c := m.slots[id].cell;
    var c' := c.(header := c.header.(running := false));
    CellInv(m, spare, id, c', Store(m, id, c').(current := Finishing(id)), spare);
  }

  lemma FinishPendingInv(m: Machine, spare: multiset<TaskId>)
    requires InvWith(m, spare) && m.current.Polling?
    ensures FinishPending(m).Ok? && InvWith(FinishPending(m).value, spare)
  {
    var id := m.current.task;
    SpareIsLive(m, spare, id);
    CellFacts(m, spare, id);
    var c := m.slots[id].cell;
    if c.header.notified {
      PushCount(m.queue, id);
      EnqueueInv(m, spare, id, [id] + m.queue, FinishPending(m).value);
    } else {
      PauseInv(m, spare);
    }
  }

  lemma FinishReadyInv(m: Machine, spare: multiset<TaskId>, output: int)
    requires InvWith(m, spare) && m.current.Polling?
    ensures FinishReady(m, output).Ok? && InvWith(FinishReady(m, output).value, spare)
  {
    var id := m.current.task;
    SpareIsLive(m, spare, id);
    CellFacts(m, spare, id);
    var c := m.slots[id].cell;
    var done := c.(header := c.header.(running := false, complete := true), stage := Finished(output),
                   history := c.history.(produced := Some(output)));
    var c' := if c.header.joinInterest then done else Consume(done, false);
    var m1 := Store(m, id, c').(current := Finishing(id));
    CellInv(m, spare, id, c', m1, spare);
    if c.header.joinInterest && c.header.joinWaker {
      var w := c.joinWaker.value;
      if w.TaskWaker? {
        StoredWakerIsLive(m1, spare, id);
      }
      WakeByRefInv(m1, spare, w);
    }
  }

  lemma {:induction false} HeldIsStored(slots: seq<Slot>, i: nat, id: TaskId)
    requires i < |slots| && Holds(slots[i], id) == 1
    ensures Stored(slots, id) >= 1
  {
    if i < |slots| - 1 {
      HeldIsStored(slots[..|slots| - 1], i, id);
    }
  }

  /** A task whose waker is stored in a live cell is live. */
  lemma StoredWakerIsLive(m: Machine, spare: multiset<TaskId>, i: TaskId)
    requires CountedWith(m, spare) && IsLive(m, i)
    requires m.slots[i].cell.joinWaker.Some? && m.slots[i].cell.joinWaker.value.TaskWaker?
    ensures IsLive(m, m.slots[i].cell.joinWaker.value.task)
  {
    var id := m.slots[i].cell.joinWaker.value.task;
    HeldIsStored(m.slots, i, id);
    SpareIsLive(m, spare, id);
  }

  lemma CloneWakerInv(m: Machine, spare: multiset<TaskId>, w: Waker)
    requires InvWith(m, spare) && (w.TaskWaker? ==> IsLive(m, w.task))
    ensures CloneWaker(m, w).Ok?
    ensures InvWith(CloneWaker(m, w).value, spare + OwnedBy(Some(w)))
  {
    if w.TaskWaker? {
      RefIncInv(m, spare, w.task);
      assert OwnedBy(Some(w)) == multiset{w.task};
    } else {
      assert spare + OwnedBy(Some(w)) == spare;
    }
  }

  lemma StoreWakerBalance(m: Machine, spare: multiset<TaskId>, id: TaskId, w: Waker, c': Cell, m': Machine, k: TaskId)
    requires IsLive(m, id) && c'.joinWaker == Some(w)
    requires m' == Store(m, id, c').(dropping := m.dropping + OwnedBy(m.slots[id].cell.joinWaker))
    ensures Loose(m', k) + spare[k] + Holds(Live(c'), k)
         == Loose(m, k) + (spare + OwnedBy(Some(w)))[k] + Holds(m.slots[id], k)
  {
    OwnedByCount(Some(w), k);
    OwnedByCount(m.slots[id].cell.joinWaker, k);
  }

  lemma StoreWakerCounted(m: Machine, spare: multiset<TaskId>, id: TaskId, w: Waker, c': Cell, m': Machine)
    requires CountedWith(m, spare + OwnedBy(Some(w))) && IsLive(m, id)
    requires c'.joinWaker == Some(w) && c'.header.refs == m.slots[id].cell.header.refs
    requires m' == Store(m, id, c').(dropping := m.dropping + OwnedBy(m.slots[id].cell.joinWaker))
    ensures CountedWith(m', spare)
  {
    hide Loose, Holds, OwnedBy;
    var spare' := spare + OwnedBy(Some(w));
    forall k: TaskId
      ensures Loose(m', k) + spare[k] + Holds(Live(c'), k) == Loose(m, k) + spare'[k] + Holds(m.slots[id], k)
    {
      StoreWakerBalance(m, spare, id, w, c', m', k);
    }
    SlotCounted(m, spare', id, Live(c'), m', spare);
  }

  /** Storing a waker whose reference is in hand, in place of the one stored before. */
  lemma StoreWakerInv(m: Machine, spare: multiset<TaskId>, id: TaskId, w: Waker, c': Cell)
    requires InvWith(m, spare + OwnedBy(Some(w))) && IsLive(m, id)
    requires var c := m.slots[id].cell;
             && !c.header.complete && id in m.joins
             && c' == c.(header := c.header.(joinWaker := true), joinWaker := Some(w),
                         history := c.history.(registered := Some(w)))
    ensures InvWith(
      Store(m, id, c').(dropping := m.dropping + OwnedBy(m.slots[id].cell.joinWaker)), spare)
  {
    CellFacts(m, spare + OwnedBy(Some(w)), id);
    var m' := Store(m, id, c').(dropping := m.dropping + OwnedBy(m.slots[id].cell.joinWaker));
    StoreWakerCounted(m, spare, id, w, c', m');
    SlotScheduled(m, id, c', m');
    SlotCells(m, id, c', m');
  }

  lemma SetJoinWakerInv(m: Machine, spare: multiset<TaskId>, id: TaskId, w: Waker)
    requires InvWith(m, spare) && IsLive(m, id) && id in m.joins
    requires !m.slots[id].cell.header.complete && !m.slots[id].cell.header.joinWaker
    requires w.TaskWaker? ==> IsLive(m, w.task)
    ensures SetJoinWaker(m, id, w).Ok? && InvWith(SetJoinWaker(m, id, w).value, spare)
  {
    CellFacts(m, spare, id);
    CloneWakerInv(m, spare, w);
    var m1 := CloneWaker(m, w).value;
    var c := m1.slots[id].cell;
    var c' := c.(header := c.header.(joinWaker := true), joinWaker := Some(w),
                 history := c.history.(registered := Some(w)));
    StoreWakerInv(m1, spare, id, w, c');
  }

  /** A handle whose output is still there, or that is still waiting, may be polled. */
  predicate MayPoll(m: Machine, id: TaskId) {
    IsLive(m, id) && !HasDelivered(m.slots[id].cell.history)
  }

  /** The output is taken out. */
  lemma TakeOutputInv(m: Machine, spare: multiset<TaskId>, id: TaskId, w: Waker)
    requires InvWith(m, spare) && id in m.joins && MayPoll(m, id) && m.slots[id].cell.header.complete
    ensures PollJoin(m, id, w).Ok? && InvWith(PollJoin(m, id, w).value.0, spare)
  {
    CellFacts(m, spare, id);
    CellInv(m, spare, id, Consume(m.slots[id].cell, true), PollJoin(m, id, w).value.0, spare);
  }

  /** Only what is recorded of the waker registered changes, and whether its flag is set. */
  lemma RegisterInv(m: Machine, spare: multiset<TaskId>, id: TaskId, c: Cell, m': Machine)
    requires InvWith(m, spare) && id in m.joins && IsLive(m, id) && m' == Store(m, id, c)
    requires !c.header.complete && m.slots[id].cell.header.joinWaker && c.header.joinInterest
    requires var was := m.slots[id].cell;
             c == was.(header := was.header.(joinWaker := c.header.joinWaker),
                       history := was.history.(registered := c.history.registered))
    requires c.history.registered == if c.header.joinWaker then c.joinWaker else None
    ensures InvWith(m', spare)
  {
    CellFacts(m, spare, id);
    CellInv(m, spare, id, c, m', spare);
  }

  lemma PollJoinInv(m: Machine, spare: multiset<TaskId>, id: TaskId, w: Waker)
    requires InvWith(m, spare) && id in m.joins && MayPoll(m, id)
    requires w.TaskWaker? ==> IsLive(m, w.task)
    ensures PollJoin(m, id, w).Ok? && InvWith(PollJoin(m, id, w).value.0, spare)
  {
    hide InvWith;
    CellFacts(m, spare, id);
    var c := m.slots[id].cell;
    if c.header.complete {
      TakeOutputInv(m, spare, id, w);
    } else if c.header.joinWaker {
      if c.joinWaker.value == w {
        RegisterInv(m, spare, id, c.(history := c.history.(registered := Some(w))), PollJoin(m, id, w).value.0);
      } else {
        var c1 := c.(header := c.header.(joinWaker := false), history := c.history.(registered := None));
        var m1 := Store(m, id, c1);
        RegisterInv(m, spare, id, c1, m1);
        SetJoinWakerInv(m1, spare, id, w);
      }
    } else {
      SetJoinWakerInv(m, spare, id, w);
    }
  }

  /** The fast path of dropping a handle: nothing has happened to the task yet. */
  lemma DropFreshJoinInv(m: Machine, spare: multiset<TaskId>, id: TaskId)
    requires InvWith(m, spare) && id in m.joins && IsLive(m, id) && m.slots[id].cell.header == INITIAL_HEADER
    ensures DropJoin(m, id).Ok? && InvWith(DropJoin(m, id).value, spare)
  {
    CellFacts(m, spare, id);
    var m' := DropJoin(m, id).value;
    CellInv(m, spare, id, m'.slots[id].cell, m', spare);
  }

  lemma DropUsedJoinInv(m: Machine, spare: multiset<TaskId>, id: TaskId)
    requires InvWith(m, spare) && id in m.joins && IsLive(m, id) && m.slots[id].cell.header != INITIAL_HEADER
    ensures DropJoin(m, id).Ok? && InvWith(DropJoin(m, id).value, spare)
  {
    CellFacts(m, spare, id);
    var m' := DropJoin(m, id).value;
    CellInv(m, spare, id, m'.slots[id].cell, m', spare);
  }

  lemma DropJoinInv(m: Machine, spare: multiset<TaskId>, id: TaskId)
    requires InvWith(m, spare) && id in m.joins
    ensures DropJoin(m, id).Ok? && InvWith(DropJoin(m, id).value, spare)
  {
    SpareIsLive(m, spare, id);
    if m.slots[id].cell.header == INITIAL_HEADER {
      DropFreshJoinInv(m, spare, id);
    } else {
      DropUsedJoinInv(m, spare, id);
    }
  }

  /** Every reference that is held somewhere is to a live cell. */
  lemma HeldIsLive(m: Machine, id: TaskId)
    requires Inv(m)
    requires id in m.wakers || id in m.joins || id in m.closing || id in m.queue || id in m.dropping
          || m.current == Polling(id) || m.current == Finishing(id)
    ensures IsLive(m, id)
  {
    InvIsInvWith(m);
    assert id in m.queue ==> multiset(m.queue)[id] >= 1;
    SpareIsLive(m, multiset{}, id);
  }

  /**
   What a client that owns what it uses must see to besides: not to poll a handle again, and, while
   CURRENT is not set, not to spawn and not to wake a task that would have to be queued; and not to
   enter a runtime twice.
   */
  predicate Careful(m: Machine, op: Op) {
    match op
    case OpPollJoin(id, _) => MayPoll(m, id)
    case OpSpawn => m.entered
    case OpEnter => !m.entered
    case OpWakeByVal(id) => MayWake(m, id)
    case OpWakeByRef(TaskWaker(id)) => MayWake(m, id)
    case _ => true
  }

  predicate Proper(m: Machine, op: Op) {
    Enabled(m, op) && Careful(m, op)
  }

  /** `m1` is `m` with one reference to `id` taken out of some field, about to be dropped. */
  ghost predicate Takes(m: Machine, m1: Machine, id: TaskId) {
    && m1.slots == m.slots && m1.joins == m.joins
    && (m1.queue == m.queue || (m.down && m.queue != [] && m1.queue == m.queue[1..]))
    && m1.closing <= m.closing && m1.entered == m.entered && m1.down == m.down
    && (m1.current == m.current || m1.current.NoTask?)
    && (forall k: TaskId :: m1.current == Polling(k) <==> m.current == Polling(k))
    && (forall k: TaskId :: Loose(m1, k) + One(k == id) == Loose(m, k))
  }

  lemma TakesWaker(m: Machine, id: TaskId)
    requires id in m.wakers
    ensures Takes(m, m.(wakers := m.wakers - multiset{id}), id)
  {}

  lemma TakesClosing(m: Machine, id: TaskId)
    requires id in m.closing
    ensures Takes(m, m.(closing := m.closing - {id}), id)
  {}

  lemma TakesDropping(m: Machine, id: TaskId)
    requires id in m.dropping
    ensures Takes(m, m.(dropping := m.dropping - multiset{id}), id)
  {}

  lemma TakesFinished(m: Machine)
    requires m.current.Finishing?
    ensures Takes(m, m.(current := NoTask), m.current.task)
  {}

  lemma TakesQueued(m: Machine)
    requires m.down && m.queue != []
    ensures Takes(m, m.(queue := m.queue[1..]), m.queue[0])
  {
    TailCount(m.queue);
  }

  lemma TakeInv(m: Machine, m1: Machine, id: TaskId)
    requires Inv(m) && Takes(m, m1, id)
    ensures InvWith(m1, multiset{id})
  {
    InvIsInvWith(m);
    TakeCounts(m, m1, id);
    if m1.queue != m.queue { TailCount(m.queue); }
    hide Refs, Stored;
  }

  lemma TakeCounts(m: Machine, m1: Machine, id: TaskId)
    requires Accounted(m, multiset{}) && Takes(m, m1, id)
    ensures Accounted(m1, multiset{id})
  {
    forall k: TaskId
      ensures Owners(m1, k) + multiset{id}[k] == Refs(m1, k)
    {
      assert Owners(m, k) + multiset{}[k] == Refs(m, k);
    }
  }

  lemma TailCount(queue: seq<TaskId>)
    requires queue != []
    ensures multiset(queue) == multiset{queue[0]} + multiset(queue[1..])
  {
    assert queue == [queue[0]] + queue[1..];
  }

  /** Taking one reference out of a field leaves it in hand, and dropping it keeps the invariant. */
  lemma TakeAndDrop(m: Machine, m1: Machine, id: TaskId)
    requires Inv(m) && Takes(m, m1, id)
    ensures DropReference(m1, id).Ok? && Inv(DropReference(m1, id).value)
  {
    TakeInv(m, m1, id);
    DropInv(m1, multiset{id}, id);
    assert multiset{id} - multiset{id} == multiset{};
    InvIsInvWith(DropReference(m1, id).value);
  }

  lemma SpendWaker(m: Machine, id: TaskId)
    requires Inv(m) && id in m.wakers && MayWake(m, id)
    ensures WakeByVal(m.(wakers := m.wakers - multiset{id}), id).Ok?
    ensures Inv(WakeByVal(m.(wakers := m.wakers - multiset{id}), id).value)
  {
    var m1 := m.(wakers := m.wakers - multiset{id});
    TakesWaker(m, id);
    TakeInv(m, m1, id);
    WakeByValInv(m1, multiset{id}, id);
    assert multiset{id} - multiset{id} == multiset{};
    InvIsInvWith(WakeByVal(m1, id).value);
  }

  lemma WakerStepInv(m: Machine, op: Op)
    requires Inv(m) && Proper(m, op)
    requires op.OpCloneWaker? || op.OpDropWaker? || op.OpWakeByVal? || op.OpWakeByRef?
    ensures Step(m, op).Ok? && Inv(Step(m, op).value)
  {
    hide Inv;
    match op
    case OpCloneWaker(w) => CloneStepInv(m, w);
    case OpDropWaker(id) => DropWakerInv(m, id);
    case OpWakeByVal(id) => SpendWaker(m, id);
    case OpWakeByRef(w) => WakeStepInv(m, w);
  }

  lemma CloneStepInv(m: Machine, w: Waker)
    requires Inv(m) && Usable(m, w)
    ensures Step(m, OpCloneWaker(w)).Ok? && Inv(Step(m, OpCloneWaker(w)).value)
  {
    InvIsInvWith(m);
    if w.TaskWaker? {
      HeldIsLive(m, w.task);
      CloneInv(m, w.task);
    }
  }

  lemma DropWakerInv(m: Machine, id: TaskId)
    requires Inv(m) && id in m.wakers
    ensures Step(m, OpDropWaker(id)).Ok? && Inv(Step(m, OpDropWaker(id)).value)
  {
    TakesWaker(m, id);
    TakeAndDrop(m, m.(wakers := m.wakers - multiset{id}), id);
  }

  lemma WakeStepInv(m: Machine, w: Waker)
    requires Inv(m) && Proper(m, OpWakeByRef(w))
    ensures Step(m, OpWakeByRef(w)).Ok? && Inv(Step(m, OpWakeByRef(w)).value)
  {
    InvIsInvWith(m);
    if w.TaskWaker? { HeldIsLive(m, w.task); }
    WakeByRefInv(m, multiset{}, w);
    InvIsInvWith(Step(m, OpWakeByRef(w)).value);
  }

  lemma CloneInv(m: Machine, id: TaskId)
    requires InvWith(m, multiset{}) && IsLive(m, id)
    ensures RefInc(m, id).Ok?
    ensures Inv(RefInc(m, id).value.(wakers := m.wakers + multiset{id}))
  {
    CellFacts(m, multiset{}, id);
    var m' := RefInc(m, id).value.(wakers := m.wakers + multiset{id});
    CellInv(m, multiset{}, id, m'.slots[id].cell, m', multiset{});
    InvIsInvWith(m');
  }

  lemma TaskStepInv(m: Machine, op: Op)
    requires Inv(m) && Proper(m, op)
    requires op.OpSpawn? || op.OpBeginPoll? || op.OpFinishPending? || op.OpFinishReady? || op.OpDropTask?
    ensures Step(m, op).Ok? && Inv(Step(m, op).value)
  {
    InvIsInvWith(m);
    match op {
      case OpSpawn => SpawnInv(m);
      case OpBeginPoll => BeginPollInv(m, multiset{});
      case OpFinishPending => FinishPendingInv(m, multiset{});
      case OpFinishReady(v) => FinishReadyInv(m, multiset{}, v);
      case OpDropTask =>
        TakesFinished(m);
        TakeAndDrop(m, m.(current := NoTask), m.current.task);
    }
    InvIsInvWith(Step(m, op).value);
  }

  lemma HandleStepInv(m: Machine, op: Op)
    requires Inv(m) && Proper(m, op)
    requires op.OpPollJoin? || op.OpDropJoin? || op.OpCloseJoin?
    ensures Step(m, op).Ok? && Inv(Step(m, op).value)
  {
    InvIsInvWith(m);
    match op {
      case OpPollJoin(id, w) =>
        if w.TaskWaker? { HeldIsLive(m, w.task); }
        PollJoinInv(m, multiset{}, id, w);
      case OpDropJoin(id) => DropJoinInv(m, multiset{}, id);
      case OpCloseJoin(id) =>
        TakesClosing(m, id);
        TakeAndDrop(m, m.(closing := m.closing - {id}), id);
    }
    InvIsInvWith(Step(m, op).value);
  }

  lemma ReleaseInv(m: Machine, id: TaskId)
    requires Inv(m) && id in m.dropping
    ensures Step(m, OpRelease(id)).Ok? && Inv(Step(m, OpRelease(id)).value)
  {
    TakesDropping(m, id);
    TakeAndDrop(m, m.(dropping := m.dropping - multiset{id}), id);
  }

  /** Entering and leaving the runtime, and the flag of the main future. */
  lemma FlagStepInv(m: Machine, op: Op)
    requires Inv(m) && Proper(m, op)
    requires op.OpEnter? || op.OpLeave? || op.OpShouldPoll? || op.OpShutdown?
    ensures Step(m, op).Ok? && Inv(Step(m, op).value)
  {
    var m' := Step(m, op).value;
    assert forall id: TaskId :: Owners(m', id) == Owners(m, id) && Refs(m', id) == Refs(m, id);
  }

  lemma DropQueuedInv(m: Machine)
    requires Inv(m) && m.down && m.queue != []
    ensures DropQueued(m).Ok? && Inv(DropQueued(m).value)
  {
    TakesQueued(m);
    TakeAndDrop(m, m.(queue := m.queue[1..]), m.queue[0]);
  }

  /** Safety of one step: it faults nowhere and keeps the invariant. */
  lemma StepSafe(m: Machine, op: Op)
    requires Inv(m) && Proper(m, op)
    ensures Step(m, op).Ok? && Inv(Step(m, op).value)
  {
    match op {
      case OpEnter => FlagStepInv(m, op);
      case OpLeave => FlagStepInv(m, op);
      case OpShouldPoll => FlagStepInv(m, op);
      case OpShutdown => FlagStepInv(m, op);
      case OpDropQueued => DropQueuedInv(m);
      case OpSpawn => TaskStepInv(m, op);
      case OpBeginPoll => TaskStepInv(m, op);
      case OpFinishPending => TaskStepInv(m, op);
      case OpFinishReady(_) => TaskStepInv(m, op);
      case OpDropTask => TaskStepInv(m, op);
      case OpPollJoin(_, _) => HandleStepInv(m, op);
      case OpDropJoin(_) => HandleStepInv(m, op);
      case OpCloseJoin(_) => HandleStepInv(m, op);
      case OpRelease(id) => ReleaseInv(m, id);
      case OpCloneWaker(_) => WakerStepInv(m, op);
      case OpDropWaker(_) => WakerStepInv(m, op);
      case OpWakeByVal(_) => WakerStepInv(m, op);
      case OpWakeByRef(_) => WakerStepInv(m, op);
    }
  }

  /** The wake of a task that has to be queued, while CURRENT is not set. */
  predicate StrayWake(m: Machine, id: TaskId) {
    !m.entered && IsLive(m, id) && Submits(m.slots[id].cell.header)
  }

  /**
   Exactly when a client that owns what it uses meets a panic, and which: polling a handle that has
   returned its output; spawning, or waking a task that is idle and not notified, outside of
   `block_on`; and `block_on` inside of it.
   */
  lemma FaultExactly(m: Machine, op: Op)
    requires Inv(m) && Enabled(m, op)
    ensures Step(m, op).Fail? <==>
      match op
      case OpPollJoin(id, _) => IsLive(m, id) && HasDelivered(m.slots[id].cell.history)
      case OpSpawn => !m.entered
      case OpEnter => m.entered
      case OpWakeByVal(id) => StrayWake(m, id)
      case OpWakeByRef(TaskWaker(id)) => StrayWake(m, id)
      case _ => false
    ensures Step(m, op).Fail? ==>
      Step(m, op).fault == if op.OpPollJoin? then PolledAfterCompletion
                           else if op.OpEnter? then NestedRuntime
                           else NotEntered
  {
    if Proper(m, op) {
      StepSafe(m, op);
    } else if op.OpPollJoin? {
      HeldIsLive(m, op.task);
      InvIsInvWith(m);
      CellFacts(m, multiset{}, op.task);
    }
  }

  // ----- runs -----

  /** Executes a list of steps, ignoring those the client is in no position to take. */
  function Run(m: Machine, ops: seq<Op>): Result<Machine>
    decreases ops
  {
    if ops == [] then Ok(m)
    else if Proper(m, ops[0]) then
      var m1 :- Step(m, ops[0]);
      Run(m1, ops[1..])
    else Run(m, ops[1..])
  }

  lemma StartInv()
    ensures Inv(START)
  {}

  /** No run meets a fault, and every state it reaches satisfies the invariant. */
  lemma {:induction false} RunSafe(m: Machine, ops: seq<Op>)
    requires Inv(m)
    ensures Run(m, ops).Ok? && Inv(Run(m, ops).value)
    decreases ops
  {
    if ops != [] {
      if Proper(m, ops[0]) {
        StepSafe(m, ops[0]);
        RunSafe(Step(m, ops[0]).value, ops[1..]);
      } else {
        RunSafe(m, ops[1..]);
      }
    }
  }
}
