/**
 When a queued task is polled. The executor takes tasks from the front of the run queue and new ones
 join at the back, but a task that was woken during its own poll goes back to the front
 (`runtime/src/scheduler.rs`, `runtime/src/task/harness.rs`). The first part is about any turns; the
 second about `block_on`, whose traces are such turns.
 */
module Fairness {
  import opened Options
  import opened TaskState
  import opened TaskMachine
  import opened TaskSafety
  import opened TaskTheorems
  import opened BlockOn

  /** A step the executor takes between two runs: a call, or a look at the main future's flag. */
  predicate Quiet(op: Op) {
    ClientOp(op) || op.OpShouldPoll?
  }

  function QuietOps(ops: seq<Op>): (r: seq<Op>)
    ensures forall op :: op in r ==> Quiet(op)
    ensures (forall op :: op in ops ==> Quiet(op)) ==> r == ops
  {
    if ops == [] then []
    else
      assert ops == [ops[0]] + ops[1..];
      (if Quiet(ops[0]) then [ops[0]] else []) + QuietOps(ops[1..])
  }

  /** One turn of the executor, and before it what the main future and the driver do. */
  datatype Slice = Slice(before: seq<Op>, turn: Turn)

  function SliceOps(s: Slice): seq<Op> {
    QuietOps(s.before) + TurnOps(s.turn)
  }

  function SlicesOps(ss: seq<Slice>): seq<Op> {
    if ss == [] then [] else SliceOps(ss[0]) + SlicesOps(ss[1..])
  }

  /** The machine after some steps, none of which can fault. */
  ghost function After(m: Machine, ops: seq<Op>): (m': Machine)
    requires Inv(m)
    ensures Inv(m') && Run(m, ops) == Ok(m')
  {
    RunSafe(m, ops);
    Run(m, ops).value
  }

  /** The poll in the slice has made its calls, but has not returned yet. */
  ghost function AtReturn(m: Machine, s: Slice): Machine
    requires Inv(m)
  {
    After(m, QuietOps(s.before) + ([OpBeginPoll] + ClientOps(s.turn.calls)))
  }

  /** The future returns Pending and was woken meanwhile, so that its task yields to the front. */
  ghost predicate Yields(m: Machine, s: Slice)
    requires Inv(m)
  {
    var m1 := AtReturn(m, s);
    s.turn.result.Pending? && m1.current.Polling? && IsLive(m1, m1.current.task)
    && m1.slots[m1.current.task].cell.header.notified
  }

  // ----- what a turn does to the queue -----

  lemma SameRunTrans(a: Machine, b: Machine, c: Machine)
    requires SameRun(a, b) && SameRun(b, c)
    ensures SameRun(a, c)
  {
    assert c.queue[..|a.queue|] == c.queue[..|b.queue|][..|a.queue|];
  }

  lemma {:induction false} ClientsQuiet(calls: seq<Op>)
    ensures forall op :: op in ClientOps(calls) ==> Quiet(op)
  {
    if calls != [] { ClientsQuiet(calls[1..]); }
  }

  lemma QuietKeepsRun(m: Machine, op: Op)
    requires Inv(m) && Quiet(op) && Proper(m, op)
    ensures Step(m, op).Ok? && SameRun(m, Step(m, op).value)
  {
    StepSafe(m, op);
    if ClientOp(op) {
      ClientKeepsRun(m, op);
    } else {
      assert m.queue[..|m.queue|] == m.queue;
    }
  }

  /** Calls leave the queue as it was, but for what they append. */
  lemma {:induction false} CallsKeepRun(m: Machine, ops: seq<Op>, id: TaskId)
    requires Inv(m) && forall op :: op in ops ==> Quiet(op)
    ensures SameRun(m, After(m, ops)) && !PolledIn(m, ops, id)
    decreases |ops|
  {
    if ops == [] {
      assert m.queue[..|m.queue|] == m.queue;
    } else if Proper(m, ops[0]) {
      StepSafe(m, ops[0]);
      QuietKeepsRun(m, ops[0]);
      var m1 := Step(m, ops[0]).value;
      CallsKeepRun(m1, ops[1..], id);
      SameRunTrans(m, m1, After(m1, ops[1..]));
    } else {
      CallsKeepRun(m, ops[1..], id);
    }
  }

  /** The queue begins with `front`, and then goes on with the rest of what it was. */
  ghost predicate Leads(queue: seq<TaskId>, front: seq<TaskId>) {
    |front| <= |queue| && queue[..|front|] == front
  }

  lemma BeginTurn(m: Machine, calls: seq<Op>)
    requires Idling(m) && m.queue != []
    ensures Step(m, OpBeginPoll).Ok?
    ensures var m1 := Step(m, OpBeginPoll).value;
            Inv(m1) && m1.entered && m1.current == Polling(m.queue[0]) && m1.queue == m.queue[1..]
            && After(m, [OpBeginPoll] + ClientOps(calls)) == After(m1, ClientOps(calls))
  {
    StepSafe(m, OpBeginPoll);
    OneStep(m, OpBeginPoll, Step(m, OpBeginPoll).value, ClientOps(calls), 0);
  }

  lemma DropTurn(m: Machine, t: Turn, id: TaskId)
    requires Inv(m) && m.entered && m.current.Finishing?
    ensures var m' := After(m, DropOps(t)); Idling(m') && Leads(m'.queue, m.queue)
    ensures !PolledIn(m, DropOps(t), id)
  {
    hide Inv, Run, PolledIn, ClientOps;
    StepSafe(m, OpDropTask);
    DropKeepsQueue(m);
    var m1 := Step(m, OpDropTask).value;
    ClientsQuiet(t.after);
    CallsKeepRun(m1, ClientOps(t.after), id);
    OneStep(m, OpDropTask, m1, ClientOps(t.after), id);
  }

  lemma DropKeepsQueue(m: Machine)
    requires m.current.Finishing? && Step(m, OpDropTask).Ok?
    ensures var m' := Step(m, OpDropTask).value;
            m'.queue == m.queue && m'.current.NoTask? && m'.entered == m.entered
  {}

  lemma EndTurn(m: Machine, t: Turn, id: TaskId)
    requires Inv(m) && m.entered && m.current.Polling?
    ensures IsLive(m, m.current.task)
    ensures var m' := After(m, EndOps(t));
            var again := t.result.Pending? && m.slots[m.current.task].cell.header.notified;
            Idling(m') && Leads(m'.queue, (if again then [m.current.task] else []) + m.queue)
    ensures !PolledIn(m, EndOps(t), id)
  {
    hide Inv, Run, PolledIn, ClientOps, DropOps;
    HeldIsLive(m, m.current.task);
    StepSafe(m, FinishOp(t.result));
    var m1 := Step(m, FinishOp(t.result)).value;
    FinishQueue(m, t.result);
    ClientsQuiet(t.completing);
    CallsKeepRun(m1, ClientOps(t.completing), id);
    var m2 := After(m1, ClientOps(t.completing));
    DropTurn(m2, t, id);
    RunConcat(m1, ClientOps(t.completing), DropOps(t), id);
    OneStep(m, FinishOp(t.result), m1, ClientOps(t.completing) + DropOps(t), id);
    var again := t.result.Pending? && m.slots[m.current.task].cell.header.notified;
    LeadsOn((if again then [m.current.task] else []) + m.queue, m1.queue, m2.queue);
    LeadsOn((if again then [m.current.task] else []) + m.queue, m2.queue, After(m2, DropOps(t)).queue);
  }

  lemma LeadsOn(front: seq<TaskId>, q: seq<TaskId>, q': seq<TaskId>)
    requires Leads(q, front) && Leads(q', q)
    ensures Leads(q', front)
  {
    assert q'[..|front|] == q'[..|q|][..|front|];
  }

  lemma FinishQueue(m: Machine, result: Poll)
    requires Inv(m) && m.current.Polling? && Step(m, FinishOp(result)).Ok?
    ensures IsLive(m, m.current.task)
    ensures var m1 := Step(m, FinishOp(result)).value;
            var again := result.Pending? && m.slots[m.current.task].cell.header.notified;
            && m1.entered && m1.current == Finishing(m.current.task)
            && Leads(m1.queue, (if again then [m.current.task] else []) + m.queue)
  {
    HeldIsLive(m, m.current.task);
    if result.Ready? {
      ReadyQueue(m, result.value);
    } else {
      assert [] + m.queue == m.queue;
    }
  }

  lemma ReadyQueue(m: Machine, v: int)
    requires Inv(m) && m.current.Polling? && FinishReady(m, v).Ok?
    ensures var m1 := FinishReady(m, v).value;
            m1.entered && m1.current == Finishing(m.current.task) && Leads(m1.queue, [] + m.queue)
  {
    assert [] + m.queue == m.queue;
  }

  /** A turn polls the front of the queue; its task goes back there if it yields, and leaves otherwise. */
  lemma TurnQueue(m: Machine, s: Slice, id: TaskId)
    requires Idling(m) && m.queue != []
    ensures var m' := After(m, SliceOps(s));
            Idling(m') && Leads(m'.queue, if Yields(m, s) then m.queue else m.queue[1..])
    ensures PolledIn(m, SliceOps(s), id) <==> m.queue[0] == id
  {
    hide Inv, Step, Run, PolledIn, ClientOps, QuietOps, SliceOps, EndOps, Yields, AtReturn;
    var m1 := After(m, QuietOps(s.before));
    CallsKeepRun(m, QuietOps(s.before), id);
    BeginTurn(m1, s.turn.calls);
    var m2 := Step(m1, OpBeginPoll).value;
    ClientsQuiet(s.turn.calls);
    CallsKeepRun(m2, ClientOps(s.turn.calls), id);
    var m3 := After(m2, ClientOps(s.turn.calls));
    EndTurn(m3, s.turn, id);
    SliceRun(m, s, m1, m2, m3, id);
    assert m1.queue[0] == m.queue[0] by { assert m1.queue[..|m.queue|][0] == m.queue[0]; }
    SliceQueue(m.queue, m1.queue, m3.queue);
  }

  /** The tail of the queue before a turn is still there after its calls. */
  lemma SliceQueue(q: seq<TaskId>, q1: seq<TaskId>, q3: seq<TaskId>)
    requires q != [] && Leads(q1, q) && Leads(q3, q1[1..])
    ensures Leads(q3, q[1..]) && Leads([q[0]] + q3, q)
  {
    assert q3[..|q| - 1] == q1[1..][..|q| - 1] == q1[..|q|][1..];
    assert q == [q[0]] + q[1..];
  }

  /** The parts of a slice, put together. */
  lemma SliceRun(m: Machine, s: Slice, m1: Machine, m2: Machine, m3: Machine, id: TaskId)
    requires Idling(m) && m1 == After(m, QuietOps(s.before)) && Idling(m1) && m1.queue != []
    requires Step(m1, OpBeginPoll) == Ok(m2) && Inv(m2) && m3 == After(m2, ClientOps(s.turn.calls))
    requires m3.current.Polling? && IsLive(m3, m3.current.task)
    requires !PolledIn(m, QuietOps(s.before), id) && !PolledIn(m2, ClientOps(s.turn.calls), id)
    requires !PolledIn(m3, EndOps(s.turn), id)
    ensures After(m, SliceOps(s)) == After(m3, EndOps(s.turn))
    ensures Yields(m, s) <==> s.turn.result.Pending? && m3.slots[m3.current.task].cell.header.notified
    ensures PolledIn(m, SliceOps(s), id) <==> m1.queue[0] == id
  {
    var calls, end := ClientOps(s.turn.calls), EndOps(s.turn);
    RunConcat(m, QuietOps(s.before), TurnOps(s.turn), id);
    RunConcat(m, QuietOps(s.before), [OpBeginPoll] + calls, id);
    OneStep(m1, OpBeginPoll, m2, calls + end, id);
    OneStep(m1, OpBeginPoll, m2, calls, id);
    RunConcat(m2, calls, end, id);
  }

  // ----- when a task is polled -----

  /** How many of the turns do not yield. */
  ghost function NonYields(m: Machine, ss: seq<Slice>): nat
    requires Inv(m)
    decreases |ss|
  {
    if ss == [] then 0
    else (if Yields(m, ss[0]) then 0 else 1) + NonYields(After(m, SliceOps(ss[0])), ss[1..])
  }

  lemma TwicePlaced(queue: seq<TaskId>, i: nat, j: nat)
    requires i < j < |queue| && queue[i] == queue[j]
    ensures multiset(queue)[queue[i]] >= 2
  {
    assert queue == queue[..j] + queue[j..];
    assert multiset(queue) == multiset(queue[..j]) + multiset(queue[j..]);
    assert queue[i] in queue[..j] && queue[i] in queue[j..];
  }

  lemma OncePlaced(m: Machine, i: nat, j: nat)
    requires Inv(m) && i < j < |m.queue|
    ensures m.queue[i] != m.queue[j]
  {
    HeldIsLive(m, m.queue[i]);
    assert multiset(m.queue)[m.queue[i]] <= 1;
    if m.queue[i] == m.queue[j] { TwicePlaced(m.queue, i, j); }
  }

  /**
   A task at position `k` of the queue is polled within some turns exactly if at least `k` of them,
   not counting the last, do not yield. So what keeps it waiting is only the yielding of tasks before it.
   */
  lemma {:induction false} PolledExactly(m: Machine, ss: seq<Slice>, k: nat)
    requires Idling(m) && k < |m.queue|
    ensures PolledIn(m, SlicesOps(ss), m.queue[k]) <==> ss != [] && NonYields(m, ss[..|ss| - 1]) >= k
    decreases |ss|
  {
    var id := m.queue[k];
    if ss != [] {
      var s, rest := ss[0], ss[1..];
      var m' := After(m, SliceOps(s));
      TurnQueue(m, s, id);
      RunConcat(m, SliceOps(s), SlicesOps(rest), id);
      if k > 0 {
        OncePlaced(m, 0, k);
        NextPlace(m, m', Yields(m, s), k);
        PolledExactly(m', rest, if Yields(m, s) then k else k - 1);
        if rest != [] {
          assert ss[..|ss| - 1][0] == s && ss[..|ss| - 1][1..] == rest[..|rest| - 1];
        }
      }
    }
  }

  lemma NextPlace(m: Machine, m': Machine, again: bool, k: nat)
    requires 0 < k < |m.queue| && Leads(m'.queue, if again then m.queue else m.queue[1..])
    ensures var k' := if again then k else k - 1; k' < |m'.queue| && m'.queue[k'] == m.queue[k]
  {
    var front := if again then m.queue else m.queue[1..];
    var k' := if again then k else k - 1;
    assert m'.queue[..|front|][k'] == front[k'];
  }

  /** If no task again, the queue is first in, first out. */
  lemma FifoUnlessYields(m: Machine, ss: seq<Slice>, k: nat)
    requires Idling(m) && k < |m.queue| && |ss| == k + 1 && NonYields(m, ss[..k]) == k
    ensures PolledIn(m, SlicesOps(ss), m.queue[k])
    ensures k > 0 ==> !PolledIn(m, SlicesOps(ss[..k]), m.queue[k])
  {
    PolledExactly(m, ss, k);
    if k > 0 {
      PolledExactly(m, ss[..k], k);
      assert ss[..k][..k - 1] == ss[..k - 1];
      NonYieldsBound(m, ss[..k - 1]);
    }
  }

  lemma {:induction false} NonYieldsBound(m: Machine, ss: seq<Slice>)
    requires Inv(m)
    ensures NonYields(m, ss) <= |ss|
    decreases |ss|
  {
    if ss != [] { NonYieldsBound(After(m, SliceOps(ss[0])), ss[1..]); }
  }

  // ----- turns of `block_on` -----

  /** The slices of a trace, and what was done after the last turn. */
  datatype Sliced = Sliced(slices: seq<Slice>, rest: seq<Op>)

  function WithTurns(s: Sliced, turns: nat -> Turn, n: nat): Sliced {
    if n == 0 then s
    else
      var s1 := WithTurns(s, turns, n - 1);
      Sliced(s1.slices + [Slice(s1.rest, turns(n - 1))], [])
  }

  function WithSegment(s: Sliced, segment: Segment): Sliced {
    if segment.Tasks? then WithTurns(s, segment.turns, segment.runs)
    else s.(rest := s.rest + SegmentOps(segment))
  }

  function SlicesOf(trace: seq<Segment>): Sliced {
    if trace == [] then Sliced([], [])
    else WithSegment(SlicesOf(trace[..|trace| - 1]), trace[|trace| - 1])
  }

  lemma {:induction false} SlicesSnoc(ss: seq<Slice>, s: Slice)
    ensures SlicesOps(ss + [s]) == SlicesOps(ss) + SliceOps(s)
  {
    if ss == [] {
      assert [] + [s] == [s] && [s][1..] == [];
    } else {
      assert (ss + [s])[1..] == ss[1..] + [s];
      SlicesSnoc(ss[1..], s);
    }
  }

  /** The slices and the rest are these steps. */
  ghost predicate Covers(s: Sliced, ops: seq<Op>) {
    SlicesOps(s.slices) + s.rest == ops && forall op :: op in s.rest ==> Quiet(op)
  }

  lemma {:induction false} TurnsCovered(s: Sliced, turns: nat -> Turn, n: nat, ops: seq<Op>)
    requires Covers(s, ops)
    ensures Covers(WithTurns(s, turns, n), ops + BatchOps(turns, n))
    decreases n
  {
    hide TurnOps;
    if n == 0 {
      assert ops + [] == ops;
    } else {
      var s1 := WithTurns(s, turns, n - 1);
      TurnsCovered(s, turns, n - 1, ops);
      SlicesSnoc(s1.slices, Slice(s1.rest, turns(n - 1)));
      assert QuietOps(s1.rest) == s1.rest;
      Regroup(ops, BatchOps(turns, n - 1), TurnOps(turns(n - 1)));
      Regroup(SlicesOps(s1.slices), s1.rest, TurnOps(turns(n - 1)));
    }
  }

  lemma Regroup<T>(a: seq<T>, b: seq<T>, c: seq<T>)
    ensures a + b + c == a + (b + c)
  {}

  /** What `block_on` executes is a list of turns, with calls of the main future and the driver before them. */
  lemma {:induction false} TraceCovered(trace: seq<Segment>)
    ensures Covers(SlicesOf(trace), TraceOps(trace))
    decreases |trace|
  {
    if trace != [] {
      var init, last := trace[..|trace| - 1], trace[|trace| - 1];
      TraceCovered(init);
      var s := SlicesOf(init);
      match last {
        case Tasks(turns, runs) => TurnsCovered(s, turns, runs, TraceOps(init));
        case Main(polled) =>
          ClientsQuiet(polled.calls);
          Regroup(SlicesOps(s.slices), s.rest, SegmentOps(last));
        case Submit(io) =>
          ClientsQuiet(io);
          Regroup(SlicesOps(s.slices), s.rest, SegmentOps(last));
        case Park(io) =>
          ClientsQuiet(io);
          Regroup(SlicesOps(s.slices), s.rest, SegmentOps(last));
      }
    }
  }

  /**
   `PolledExactly` for the executor: in whatever `block_on` executes, a queued task is polled exactly
   if enough turns do not yield.
   */
  lemma PolledInTrace(m: Machine, trace: seq<Segment>, k: nat)
    requires Idling(m) && k < |m.queue|
    ensures var ss := SlicesOf(trace).slices;
            PolledIn(m, TraceOps(trace), m.queue[k]) <==> ss != [] && NonYields(m, ss[..|ss| - 1]) >= k
  {
    var s := SlicesOf(trace);
    TraceCovered(trace);
    PolledExactly(m, s.slices, k);
    CallsKeepRun(After(m, SlicesOps(s.slices)), s.rest, m.queue[k]);
    RunConcat(m, SlicesOps(s.slices), s.rest, m.queue[k]);
  }

  // ----- until the thread parks -----

  /** A turn ends between two runs, even if it found no Task. */
  lemma SliceIdles(m: Machine, s: Slice)
    requires Idling(m)
    ensures Idling(After(m, SliceOps(s)))
  {
    hide Inv, Step, Run, ClientOps, QuietOps, TurnOps;
    CallsKeepRun(m, QuietOps(s.before), 0);
    var m1 := After(m, QuietOps(s.before));
    RunConcat(m, QuietOps(s.before), TurnOps(s.turn), 0);
    if m1.queue == [] {
      NoTurn(m1, s.turn);
    } else {
      AfterQuiet(m1, s.turn);
      TurnQueue(m1, Slice([], s.turn), 0);
    }
  }

  lemma AfterQuiet(m: Machine, t: Turn)
    ensures SliceOps(Slice([], t)) == TurnOps(t)
  {
    assert [] + TurnOps(t) == TurnOps(t);
  }

  /** With an empty queue there is no run; what is left of the turn are calls. */
  lemma NoTurn(m: Machine, t: Turn)
    requires Idling(m) && m.queue == []
    ensures Idling(After(m, TurnOps(t)))
  {
    hide Inv, Run, ClientOps;
    var rest := ClientOps(t.calls) + EndOps(t);
    SkipStep(m, OpBeginPoll, rest);
    ClientsQuiet(t.calls);
    CallsKeepRun(m, ClientOps(t.calls), 0);
    RunConcat(m, ClientOps(t.calls), EndOps(t), 0);
    var m1 := After(m, ClientOps(t.calls));
    SkipStep(m1, FinishOp(t.result), ClientOps(t.completing) + DropOps(t));
    ClientsQuiet(t.completing);
    CallsKeepRun(m1, ClientOps(t.completing), 0);
    RunConcat(m1, ClientOps(t.completing), DropOps(t), 0);
    var m2 := After(m1, ClientOps(t.completing));
    SkipStep(m2, OpDropTask, ClientOps(t.after));
    ClientsQuiet(t.after);
    CallsKeepRun(m2, ClientOps(t.after), 0);
  }

  lemma SkipStep(m: Machine, op: Op, rest: seq<Op>)
    requires !Proper(m, op)
    ensures Run(m, [op] + rest) == Run(m, rest)
  {
    assert ([op] + rest)[1..] == rest;
  }

  lemma {:induction false} SlicesIdle(m: Machine, ss: seq<Slice>)
    requires Idling(m)
    ensures Idling(After(m, SlicesOps(ss)))
    decreases |ss|
  {
    if ss != [] {
      SliceIdles(m, ss[0]);
      SlicesIdle(After(m, SliceOps(ss[0])), ss[1..]);
      RunConcat(m, SliceOps(ss[0]), SlicesOps(ss[1..]), 0);
    }
  }

  /** Between its segments `block_on` is between two runs. */
  lemma TraceIdles(m: Machine, trace: seq<Segment>)
    requires Idling(m)
    ensures Idling(After(m, TraceOps(trace)))
  {
    var s := SlicesOf(trace);
    TraceCovered(trace);
    SlicesIdle(m, s.slices);
    CallsKeepRun(After(m, SlicesOps(s.slices)), s.rest, 0);
    RunConcat(m, SlicesOps(s.slices), s.rest, 0);
  }

  lemma {:induction false} TraceSplit(trace: seq<Segment>, i: nat)
    requires i <= |trace|
    ensures TraceOps(trace) == TraceOps(trace[..i]) + TraceOps(trace[i..])
    decreases |trace|
  {
    if i == |trace| {
      assert trace[..i] == trace;
    } else {
      var init, last := trace[..|trace| - 1], trace[|trace| - 1];
      TraceSplit(init, i);
      assert init[..i] == trace[..i] && trace[i..][..|trace| - i - 1] == init[i..];
      Regroup(TraceOps(trace[..i]), TraceOps(init[i..]), SegmentOps(last));
    }
  }

  lemma StillThere(q: seq<TaskId>, q': seq<TaskId>, again: bool, id: TaskId)
    requires q != [] && id in q && q[0] != id && Leads(q', if again then q else q[1..])
    ensures id in q'
  {
    var front := if again then q else q[1..];
    var i :| 0 <= i < |q| && q[i] == id;
    assert front[if again then i else i - 1] == id;
    assert q'[..|front|] == front;
  }

  /** A task that is not polled stays in the queue. */
  lemma {:induction false} StaysQueued(m: Machine, ss: seq<Slice>, id: TaskId)
    requires Idling(m) && id in m.queue && !PolledIn(m, SlicesOps(ss), id)
    ensures id in After(m, SlicesOps(ss)).queue
    decreases |ss|
  {
    hide Inv, Step, PolledIn, Yields;
    if ss != [] {
      var m' := After(m, SliceOps(ss[0]));
      TurnQueue(m, ss[0], id);
      RunConcat(m, SliceOps(ss[0]), SlicesOps(ss[1..]), id);
      StillThere(m.queue, m'.queue, Yields(m, ss[0]), id);
      StaysQueued(m', ss[1..], id);
    }
  }

  lemma StaysInTrace(m: Machine, trace: seq<Segment>, id: TaskId)
    requires Idling(m) && id in m.queue && !PolledIn(m, TraceOps(trace), id)
    ensures id in After(m, TraceOps(trace)).queue
  {
    var s := SlicesOf(trace);
    TraceCovered(trace);
    var m1 := After(m, SlicesOps(s.slices));
    RunConcat(m, SlicesOps(s.slices), s.rest, id);
    StaysQueued(m, s.slices, id);
    CallsKeepRun(m1, s.rest, id);
    assert After(m1, s.rest).queue[..|m1.queue|] == m1.queue;
  }

  /**
   Whatever is queued at some point of `block_on` is polled before the thread next parks; before that,
   `PolledInTrace` says when.
   */
  lemma PolledBeforePark(m0: Machine, trace: seq<Segment>, m: Machine, i: nat, j: nat, id: TaskId)
    requires Idling(m0) && Traced(m0, trace, m) && i <= j < |trace| && trace[j].Park?
    requires id in After(m0, TraceOps(trace[..i])).queue
    ensures Idling(After(m0, TraceOps(trace[..i])))
    ensures PolledIn(After(m0, TraceOps(trace[..i])), TraceOps(trace[i..j]), id)
  {
    hide Inv, Run, PolledIn, TraceOps;
    var m1 := After(m0, TraceOps(trace[..i]));
    TraceIdles(m0, trace[..i]);
    TraceSplit(trace[..j], i);
    assert trace[..j][..i] == trace[..i] && trace[..j][i..] == trace[i..j];
    RunConcat(m0, TraceOps(trace[..i]), TraceOps(trace[i..j]), id);
    assert SegmentOk(Run(m0, TraceOps(trace[..j])).value, trace[j]);
    if !PolledIn(m1, TraceOps(trace[i..j]), id) { StaysInTrace(m1, trace[i..j], id); }
  }

  lemma {:induction false} TurnsCount(s: Sliced, turns: nat -> Turn, n: nat)
    ensures |WithTurns(s, turns, n).slices| == |s.slices| + n
    decreases n
  {
    if n > 0 { TurnsCount(s, turns, n - 1); }
  }

  lemma {:induction false} NonYieldsInit(m: Machine, ss: seq<Slice>)
    requires Inv(m) && ss != []
    ensures NonYields(m, ss) <= NonYields(m, ss[..|ss| - 1]) + 1
    decreases |ss|
  {
    if |ss| > 1 {
      assert ss[..|ss| - 1][1..] == ss[1..][..|ss| - 2];
      NonYieldsInit(After(m, SliceOps(ss[0])), ss[1..]);
    } else {
      assert ss[1..] == [];
    }
  }

  /**
   What the number of rounds of a batch is enough for: unless more than one turn in excess of the tasks
   it found yields, a batch polls every one of these tasks.
   */
  lemma BatchPollsAll(m: Machine, turns: nat -> Turn, runs: nat, k: nat)
    requires Idling(m) && SegmentOk(m, Tasks(turns, runs)) && k < |m.queue|
    requires runs - NonYields(m, SlicesOf([Tasks(turns, runs)]).slices) <= |m.queue| + 1
    ensures PolledIn(m, BatchOps(turns, runs), m.queue[k])
  {
    hide Inv, Run, PolledIn, BatchOps, NonYields, Finds;
    var trace := [Tasks(turns, runs)];
    var ss := SlicesOf(trace).slices;
    OneSegment(Tasks(turns, runs));
    TurnsCount(Sliced([], []), turns, runs);
    if Run(m, BatchOps(turns, runs)).value.queue == [] {
      if !PolledIn(m, TraceOps(trace), m.queue[k]) { StaysInTrace(m, trace, m.queue[k]); }
    } else {
      PolledInTrace(m, trace, k);
      NonYieldsInit(m, ss);
    }
  }

  lemma OneSegment(s: Segment)
    ensures TraceOps([s]) == SegmentOps(s) && SlicesOf([s]) == WithSegment(Sliced([], []), s)
  {
    assert [s][..0] == [];
  }
}
