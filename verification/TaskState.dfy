/**
 The packed state word of a task (`runtime/src/task/state.rs`).

 One 64-bit word holds five flags and, above them, a reference count. `Header` is what the word
 means; `Decode` reads it off the bits. Every method of `State` manipulates bits exactly as the
 source does and is proved to act on the decoded header only as named, so that the rest of the
 runtime is reasoned about through headers.
 */
module TaskState {

  const RUNNING: bv64 := 0x1
  const COMPLETE: bv64 := 0x2
  const LIFECYCLE_MASK: bv64 := 0x3
  const NOTIFIED: bv64 := 0x4
  const JOIN_INTEREST: bv64 := 0x8
  const JOIN_WAKER: bv64 := 0x10
  const STATE_MASK: bv64 := LIFECYCLE_MASK | NOTIFIED | JOIN_INTEREST | JOIN_WAKER
  const REF_COUNT_MASK: bv64 := !STATE_MASK
  const REF_ONE: bv64 := 0x20
  const INITIAL_STATE: bv64 := (REF_ONE * 2) | JOIN_INTEREST | NOTIFIED
  const ISIZE_MAX: bv64 := 0x7fff_ffff_ffff_ffff

  datatype Header = Header(
    running: bool, complete: bool, notified: bool,
    joinInterest: bool, joinWaker: bool, refs: nat)
  {
    predicate Idle() { !running && !complete }

    /** The effect of a wake: only a completed task ignores it. */
    function Notify(): Header {
      this.(notified := notified || running || Idle())
    }
  }

  const INITIAL_HEADER := Header(false, false, true, true, false, 2)

  /** The number of successor steps from zero to `c`. */
  ghost function Count(c: bv64): nat
    decreases c
  {
    if c == 0 then 0 else 1 + Count(c - 1)
  }

  function RefField(w: bv64): bv64 {
    (w & REF_COUNT_MASK) >> 5
  }

  /** What a state word means. */
  ghost function Decode(w: bv64): Header {
    Header(
      w & RUNNING == RUNNING, w & COMPLETE == COMPLETE, w & NOTIFIED == NOTIFIED,
      w & JOIN_INTEREST == JOIN_INTEREST, w & JOIN_WAKER == JOIN_WAKER,
      Count(RefField(w)))
  }

  lemma CountSucc(c: bv64)
    requires c != 0xffff_ffff_ffff_ffff
    ensures Count(c + 1) == Count(c) + 1
  {
    assert c + 1 != 0;
    assert c + 1 - 1 == c;
  }

  lemma SmallCounts(c: bv64)
    ensures Count(c) == 0 <==> c == 0
    ensures Count(c) == 1 <==> c == 1
    ensures Count(c) == 2 <==> c == 2
  {}

  // Setting or clearing one flag leaves the other flags and the count alone.

  lemma BitSetRunning(w: bv64)
    ensures Decode(w | RUNNING) == Decode(w).(running := true)
  {
    assert RefField(w | RUNNING) == RefField(w);
  }

  lemma BitSetNotified(w: bv64)
    ensures Decode(w | NOTIFIED) == Decode(w).(notified := true)
  {
    assert RefField(w | NOTIFIED) == RefField(w);
  }

  lemma BitSetJoinWaker(w: bv64)
    ensures Decode(w | JOIN_WAKER) == Decode(w).(joinWaker := true)
  {
    assert RefField(w | JOIN_WAKER) == RefField(w);
  }

  lemma BitClearRunning(w: bv64)
    ensures Decode(w & !RUNNING) == Decode(w).(running := false)
  {
    assert RefField(w & !RUNNING) == RefField(w);
  }

  lemma BitClearNotified(w: bv64)
    ensures Decode(w & !NOTIFIED) == Decode(w).(notified := false)
  {
    assert RefField(w & !NOTIFIED) == RefField(w);
  }

  lemma BitClearJoinInterest(w: bv64)
    ensures Decode(w & !JOIN_INTEREST) == Decode(w).(joinInterest := false)
  {
    assert RefField(w & !JOIN_INTEREST) == RefField(w);
  }

  lemma BitClearJoinWaker(w: bv64)
    ensures Decode(w & !JOIN_WAKER) == Decode(w).(joinWaker := false)
  {
    assert RefField(w & !JOIN_WAKER) == RefField(w);
  }

  lemma FlipLifecycle(w: bv64)
    ensures Decode(w ^ (RUNNING | COMPLETE))
         == Decode(w).(running := !Decode(w).running, complete := !Decode(w).complete)
  {
    assert RefField(w ^ (RUNNING | COMPLETE)) == RefField(w);
  }

  /** Adding a reference to a word that passes the overflow test disturbs no flag. */
  lemma AddReference(w: bv64)
    requires w <= ISIZE_MAX
    ensures Decode(w + REF_ONE) == Decode(w).(refs := Decode(w).refs + 1)
  {
    AddField(w);
    CountSucc(RefField(w));
  }

  lemma AddField(w: bv64)
    requires w <= ISIZE_MAX
    ensures RefField(w + REF_ONE) == RefField(w) + 1 && RefField(w) != 0xffff_ffff_ffff_ffff
    ensures (w + REF_ONE) & STATE_MASK == w & STATE_MASK
  {}

  /** Removing a reference that is there disturbs no flag. */
  lemma RemoveReference(w: bv64)
    requires Decode(w).refs >= 1
    ensures Decode(w - REF_ONE) == Decode(w).(refs := Decode(w).refs - 1)
  {
    SmallCounts(RefField(w));
    SubField(w);
    CountSucc(RefField(w) - 1);
  }

  lemma SubField(w: bv64)
    requires RefField(w) != 0
    ensures RefField(w - REF_ONE) == RefField(w) - 1
    ensures (w - REF_ONE) & STATE_MASK == w & STATE_MASK
    ensures RefField(w) - 1 != 0xffff_ffff_ffff_ffff
  {}

  /** Comparing a whole word with `INITIAL_STATE` compares headers. */
  lemma DecodeInitial(w: bv64)
    ensures w == INITIAL_STATE <==> Decode(w) == INITIAL_HEADER
  {
    SmallCounts(RefField(w));
    assert RefField(INITIAL_STATE) == 2;
  }

  datatype TransitionToIdle = Idled | IdledNotified
  datatype TransitionToNotified = DoNothing | Submit

  /** The word at the head of a task cell. */
  class State {
    var word: bv64

    ghost function View(): Header
      reads this
    {
      Decode(word)
    }

    constructor ()
      ensures View() == INITIAL_HEADER
    {
      word := INITIAL_STATE;
      new;
      DecodeInitial(word);
    }

    /** Notified -> running; clearing the flag lets a wake during the poll be seen. */
    method TransitionToRunning()
      requires View().notified && View().Idle()
      modifies this
      ensures View() == old(View()).(running := true, notified := false)
    {
      var curr := word;
      BitSetRunning(curr);
      curr := curr | RUNNING;
      BitClearNotified(curr);
      curr := curr & !NOTIFIED;
      word := curr;
    }

    method TransitionToIdle() returns (action: TransitionToIdle)
      requires View().running
      modifies this
      ensures View() == old(View()).(running := false)
      ensures action == IdledNotified <==> old(View()).notified
    {
      var curr := word;
      BitClearRunning(curr);
      curr := curr & !RUNNING;
      action := if curr & NOTIFIED == NOTIFIED then IdledNotified else Idled;
      word := curr;
    }

    /** Running -> complete, by one exclusive or. Returns the new word. */
    method TransitionToComplete() returns (snapshot: bv64)
      requires View().running && !View().complete
      modifies this
      ensures View() == old(View()).(running := false, complete := true)
      ensures snapshot == word
    {
      FlipLifecycle(word);
      word := word ^ (RUNNING | COMPLETE);
      snapshot := word;
    }

    /** A running task only records the wake; an idle one that is not yet notified must be queued. */
    method TransitionToNotified() returns (action: TransitionToNotified)
      modifies this
      ensures action == Submit <==> old(View()).Idle() && !old(View()).notified
      ensures View() == old(View()).Notify()
    {
      var curr := word;
      BitSetNotified(curr);
      if curr & RUNNING == RUNNING {
        curr := curr | NOTIFIED;
        action := DoNothing;
      } else if curr & COMPLETE == COMPLETE || curr & NOTIFIED == NOTIFIED {
        action := DoNothing;
      } else {
        curr := curr | NOTIFIED;
        action := Submit;
      }
      word := curr;
    }

    /** What a wake outside the runtime may do: it reports false if the task would have to be queued. */
    method TransitionToNotifiedWithoutSubmit() returns (done: bool)
      modifies this
      ensures done <==> !(old(View()).Idle() && !old(View()).notified)
      ensures View() == if done then old(View()).Notify() else old(View())
    {
      var curr := word;
      BitSetNotified(curr);
      if curr & RUNNING == RUNNING {
        word := curr | NOTIFIED;
        done := true;
      } else {
        done := curr & COMPLETE == COMPLETE || curr & NOTIFIED == NOTIFIED;
      }
    }

    /** The shortcut for a handle dropped before anything else happened to the task. */
    method DropJoinHandleFast() returns (ok: bool)
      modifies this
      ensures ok <==> old(View()) == INITIAL_HEADER
      ensures ok ==> View() == INITIAL_HEADER.(joinInterest := false, refs := 1)
      ensures !ok ==> View() == old(View())
    {
      DecodeInitial(word);
      if word == INITIAL_STATE {
        SubField(INITIAL_STATE);
        RemoveReference(INITIAL_STATE);
        BitClearJoinInterest(INITIAL_STATE - REF_ONE);
        word := (INITIAL_STATE - REF_ONE) & !JOIN_INTEREST;
        ok := true;
      } else {
        ok := false;
      }
    }

    method UnsetJoinInterested() returns (ok: bool)
      requires View().joinInterest
      modifies this
      ensures ok <==> !old(View()).complete
      ensures View() == if ok then old(View()).(joinInterest := false) else old(View())
    {
      var curr := word;
      if curr & COMPLETE == COMPLETE { return false; }
      BitClearJoinInterest(curr);
      word := curr & !JOIN_INTEREST;
      ok := true;
    }

    method SetWakerBit() returns (ok: bool)
      requires View().joinInterest && !View().joinWaker
      modifies this
      ensures ok <==> !old(View()).complete
      ensures View() == if ok then old(View()).(joinWaker := true) else old(View())
    {
      var curr := word;
      if curr & COMPLETE == COMPLETE { return false; }
      BitSetJoinWaker(curr);
      word := curr | JOIN_WAKER;
      ok := true;
    }

    method UnsetWakerBit() returns (ok: bool)
      requires View().joinInterest && View().joinWaker
      modifies this
      ensures ok <==> !old(View()).complete
      ensures View() == if ok then old(View()).(joinWaker := false) else old(View())
    {
      var curr := word;
      if curr & COMPLETE == COMPLETE { return false; }
      BitClearJoinWaker(curr);
      word := curr & !JOIN_WAKER;
      ok := true;
    }

    /** Adds a reference. The source aborts the process when the old word exceeds `isize::MAX`. */
    method RefInc() returns (abort: bool)
      modifies this
      ensures abort <==> old(word) > ISIZE_MAX
      ensures !abort ==> View() == old(View()).(refs := old(View()).refs + 1)
    {
      var prev := word;
      word := prev + REF_ONE;
      abort := prev > ISIZE_MAX;
      if !abort { AddReference(prev); }
    }

    /** Removes a reference; true when it was the last one. */
    method RefDec() returns (last: bool)
      requires View().refs >= 1
      modifies this
      ensures View() == old(View()).(refs := old(View()).refs - 1)
      ensures last <==> View().refs == 0
    {
      var prev := word;
      RemoveReference(prev);
      SmallCounts(RefField(prev));
      word := prev - REF_ONE;
      last := RefField(prev) == 1;
    }
  }
}
