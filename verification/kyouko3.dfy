/** The DMA code of the driver, as written: each stretch that the completion interrupt cannot split is
    a method proved against its label, and start_dma and late_unbind_dma run them with the card and
    the interrupt handler free to act in between. */
module Kyouko3Driver {
  import opened CommandFifo
  import opened DmaRing
  import opened DmaSafety
  import opened DmaTheorems
  import opened DmaFlush

  class Kyouko3 {
    // struct kyouko3
    var fill: nat
    var drain: nat
    var queuedCount: int
    const storedCount: array<int>
    var pBase: seq<nat>
    const fifo: Fifo
    // the card's DMA unit; where the user thread is, and whether a wakeup has reached it
    var card: Card
    var pc: Pc
    var woken: bool
    // history since bind
    ghost var calls: seq<Call>
    ghost var handled: nat
    ghost var owned: nat

    ghost function View(): State
      reads this, storedCount, fifo, fifo.ring
    {
      State(fill, drain, queuedCount, storedCount[..], pBase, fifo.View(), fifo.log, card,
            pc, woken, calls, handled, owned)
    }

    /** The DMA part of kyouko3_open. */
    constructor (blank: Entry)
      ensures Initial(View()) && View().log == Log([], 0, 0, 0)
      ensures fresh(storedCount) && fresh(fifo) && fresh(fifo.ring)
    {
      storedCount := new int[BUFFERS](_ => 0);
      pBase := seq(BUFFERS, _ => 0);
      fifo := new Fifo(blank);
      fill, drain, queuedCount := 0, 0, 0;
      card := Card(0, [], 0, false);
      pc, woken := Unbound, false;
      calls, handled, owned := [], 0, 0;
    }

    // ---------- the interrupt handler and the card ----------

    /** Lines 174-176: the command pair of the call that is now the oldest. */
    method SendNext()
      requires View().Shape()
      modifies fifo, fifo.ring
      ensures View() == old(View()).Fifo(Write(AddressEntry(pBase[drain])))
                                   .Fifo(Write(ConfigEntry(storedCount[drain]))).Fifo(Publish)
    {
      fifo.Write(BUFFER_A_ADDRESS, U32(pBase[drain]));
      fifo.Write(BUFFER_A_CONFIG, U32(storedCount[drain]));
      fifo.PublishHead();
    }

    /** dma_intr; false is IRQ_NONE. */
    method DmaIntr() returns (mine: bool)
      requires View().Shape()
      modifies this`card, this`queuedCount, this`drain, this`woken, this`handled, fifo, fifo.ring
      ensures mine == old(card.interrupt)
      ensures View() == if mine then Intr(old(View())) else old(View())
    {
      mine := card.interrupt;
      if !mine {
        return;
      }
      card := card.(interrupt := false);
      queuedCount := queuedCount - 1;
      drain := (drain + 1) % BUFFERS;
      handled := handled + 1;
      // wake_up on dma_not_full reaches the thread if it sleeps there, and likewise dma_empty below
      if queuedCount + 1 == BUFFERS && pc.AsleepFull? {
        woken := true;
      }
      if queuedCount != 0 {
        SendNext();
      } else if pc.AsleepEmpty? {
        woken := true;
      }
    }

    /** The card takes one entry from the FIFO. */
    method CardConsumes()
      requires Enabled(View(), CardConsume)
      modifies this`card, fifo
      ensures View() == Apply(old(View()), CardConsume)
    {
      card := Execute(card, fifo.ring[fifo.fifoTail]);
      fifo.CardTakes();
    }

    method CardCompletes()
      requires Enabled(View(), CardComplete)
      modifies this`card
      ensures View() == Apply(old(View()), CardComplete)
    {
      card := card.(completed := card.completed + 1, interrupt := true);
    }

    // ---------- start_dma, stretch by stretch ----------

    // `trace` is what has happened since the call began in state s0.

    /** Lines 262-278: the locked section, entered with an acceptable count. */
    method LockedSection(count: int) returns (wasEmpty: bool, suspend: bool)
      requires Enabled(View(), Start(count)) && Accepts(count)
      modifies this`queuedCount, this`calls, this`fill, this`pc, storedCount
      ensures View() == Apply(old(View()), Start(count))
      ensures calls == old(calls) + [Call(old(owned), count)]
      ensures wasEmpty ==> pc == Unlocked(count)
      ensures !wasEmpty ==> pc == if suspend then TestNotFull else Returning
    {
      suspend := false;
      queuedCount := queuedCount + 1;
      calls := calls + [Call(owned, count)];
      wasEmpty := fill == drain;
      if wasEmpty {
        pc := Unlocked(count);
        return;
      }
      storedCount[fill] := count;
      fill := (fill + 1) % BUFFERS;
      if fill == drain {
        suspend := true;
      }
      pc := if suspend then TestNotFull else Returning;
    }

    /** Line 267 */
    method MoveFill(ghost s0: State, ghost before: seq<Label>) returns (ghost trace: seq<Label>)
      requires Happened(s0, before, View()) && pc.Unlocked?
      modifies this`fill, this`pc
      ensures View() == Apply(old(View()), Thread) && Happened(s0, trace, View())
      ensures pc == WriteAddress(old(pc).count)
    {
      trace := HappenedNext(s0, before, View(), Thread);
      fill := (fill + 1) % BUFFERS;
      pc := WriteAddress(pc.count);
    }

    /** Line 268 */
    method SendAddress(ghost s0: State, ghost before: seq<Label>) returns (ghost trace: seq<Label>)
      requires Happened(s0, before, View()) && pc.WriteAddress?
      modifies this`pc, fifo, fifo.ring
      ensures View() == Apply(old(View()), Thread) && Happened(s0, trace, View())
      ensures pc == WriteConfig(old(pc).count)
    {
      trace := HappenedNext(s0, before, View(), Thread);
      fifo.Write(BUFFER_A_ADDRESS, U32(pBase[drain]));
      pc := WriteConfig(pc.count);
    }

    /** Line 269 */
    method SendConfig(count: int, ghost s0: State, ghost before: seq<Label>) returns (ghost trace: seq<Label>)
      requires Happened(s0, before, View()) && pc == WriteConfig(count)
      modifies this`pc, fifo, fifo.ring
      ensures View() == Apply(old(View()), Thread) && Happened(s0, trace, View())
      ensures pc == DmaRing.PublishHead
    {
      trace := HappenedNext(s0, before, View(), Thread);
      fifo.Write(BUFFER_A_CONFIG, U32(count));
      pc := DmaRing.PublishHead;
    }

    /** Line 270 */
    method SendHead(ghost s0: State, ghost before: seq<Label>) returns (ghost trace: seq<Label>)
      requires Happened(s0, before, View()) && pc.PublishHead?
      modifies this`pc, fifo
      ensures View() == Apply(old(View()), Thread) && Happened(s0, trace, View())
      ensures pc == Returning
    {
      trace := HappenedNext(s0, before, View(), Thread);
      fifo.PublishHead();
      pc := Returning;
    }

    /** Lines 271 and 281: the index of the buffer whose user address is returned. */
    method Return(ghost s0: State, ghost before: seq<Label>) returns (buffer: nat, ghost trace: seq<Label>)
      requires Happened(s0, before, View()) && pc.Returning?
      modifies this`pc, this`owned
      ensures View() == Apply(old(View()), Thread) && Happened(s0, trace, View())
      ensures pc == User && buffer == owned
    {
      trace := HappenedNext(s0, before, View(), Thread);
      buffer := fill;
      owned := fill;
      pc := User;
    }

    /** One look at the wait condition of line 279 or 223, or waking up to look again. */
    method Look(ghost s0: State, ghost before: seq<Label>) returns (ghost trace: seq<Label>)
      requires Happened(s0, before, View()) && Enabled(View(), Thread)
      requires pc.TestNotFull? || pc.AsleepFull? || pc.TestEmpty? || pc.AsleepEmpty?
      modifies this`pc, this`woken
      ensures View() == Apply(old(View()), Thread) && Happened(s0, trace, View()) && Work(View()) < old(Work(View()))
      ensures old(pc).TestNotFull? ==> pc.Returning? || pc.AsleepFull?
      ensures old(pc).AsleepFull? ==> pc.TestNotFull?
      ensures old(pc).TestEmpty? ==> pc.Freeing? || pc.AsleepEmpty?
      ensures old(pc).AsleepEmpty? ==> pc.TestEmpty?
    {
      ghost var s := View();
      trace := HappenedNext(s0, before, s, Thread);
      WorkShrinks(s, Thread);
      match pc {
        case TestNotFull => if queuedCount != BUFFERS { pc := Returning; } else { pc, woken := AsleepFull, false; }
        case TestEmpty => if queuedCount == 0 { pc := Freeing; } else { pc, woken := AsleepEmpty, false; }
        case AsleepFull => pc := TestNotFull;
        case AsleepEmpty => pc := TestEmpty;
      }
      assert View() == Apply(s, Thread);
    }

    // ---------- whole calls, with everything that may happen in between ----------

    /** The card or the handler has something to do. */
    predicate MayGoOn()
      reads this`card, fifo`fifoHead, fifo`fifoTail
    {
      card.interrupt || card.completed < |card.started| || fifo.fifoTail != fifo.fifoHead
    }

    /** One event of the card or the handler, whichever of those possible. */
    method Event(ghost s0: State, ghost before: seq<Label>) returns (ghost trace: seq<Label>)
      requires Happened(s0, before, View()) && MayGoOn()
      modifies this`card, this`queuedCount, this`drain, this`woken, this`handled, fifo, fifo.ring
      ensures Happened(s0, trace, View()) && Work(View()) < old(Work(View())) && Drifts(old(View()), View())
    {
      ghost var s, l := View(), Interrupt;
      if {
        case card.interrupt => var _ := DmaIntr();
        case card.completed < |card.started| => CardCompletes(); l := CardComplete;
        case fifo.fifoTail != fifo.fifoHead => CardConsumes(); l := CardConsume;
      }
      EventShrinks(s, l);
      DriftsNowhere(s);
      DriftsOn(s, s, l);
      trace := HappenedNext(s0, before, s, l);
    }

    /** Between two stretches of the thread: any number of card and interrupt events. */
    method Preempt(ghost s0: State, ghost before: seq<Label>) returns (ghost trace: seq<Label>)
      requires Happened(s0, before, View())
      modifies this`card, this`queuedCount, this`drain, this`woken, this`handled, fifo, fifo.ring
      ensures Happened(s0, trace, View()) && Work(View()) <= old(Work(View())) && Drifts(old(View()), View())
      decreases Work(View())
    {
      ghost var s := View();
      WorkPositive(s);
      var more := *;
      if more && MayGoOn() {
        trace := Event(s0, before);
        ghost var m := View();
        trace := Preempt(s0, trace);
        DriftsFurther(s, m, View());
      } else {
        trace := before;
        DriftsNowhere(s);
      }
    }

    /** Asleep on a wait queue: the card and the handler go on until a wakeup comes. */
    method Sleep(ghost s0: State, ghost before: seq<Label>) returns (ghost trace: seq<Label>)
      requires Happened(s0, before, View()) && (pc.AsleepFull? || pc.AsleepEmpty?)
      modifies this`card, this`queuedCount, this`drain, this`woken, this`handled, fifo, fifo.ring
      ensures Happened(s0, trace, View()) && Work(View()) <= old(Work(View())) && woken
    {
      trace := before;
      while !woken
        invariant Happened(s0, trace, View()) && (pc.AsleepFull? || pc.AsleepEmpty?)
        invariant Work(View()) <= old(Work(View()))
        decreases Work(View())
      {
        NeverStuck(View());
        trace := Event(s0, trace);
      }
    }

    /** One round of a wait: sleep or be preempted, then look. */
    method WaitRound(ghost s0: State, ghost before: seq<Label>) returns (ghost trace: seq<Label>)
      requires Happened(s0, before, View())
      requires pc.TestNotFull? || pc.AsleepFull? || pc.TestEmpty? || pc.AsleepEmpty?
      modifies this`card, this`queuedCount, this`drain, this`woken, this`handled, this`pc, fifo, fifo.ring
      ensures Happened(s0, trace, View()) && Work(View()) < old(Work(View())) && 0 <= old(Work(View()))
      ensures old(pc).TestNotFull? ==> pc.Returning? || pc.AsleepFull?
      ensures old(pc).AsleepFull? ==> pc.TestNotFull?
      ensures old(pc).TestEmpty? ==> pc.Freeing? || pc.AsleepEmpty?
      ensures old(pc).AsleepEmpty? ==> pc.TestEmpty?
    {
      WorkPositive(View());
      if pc.AsleepFull? || pc.AsleepEmpty? {
        trace := Sleep(s0, before);
      } else {
        trace := Preempt(s0, before);
      }
      trace := Look(s0, trace);
    }

    /** wait_event_interruptible, on dma_not_full until the ring is not full, or on dma_empty until it is
        empty. A signal may cut it short where it would sleep. */
    method WaitEvent(ghost s0: State, ghost before: seq<Label>) returns (signalled: bool, ghost trace: seq<Label>)
      requires Happened(s0, before, View()) && (pc.TestNotFull? || pc.TestEmpty?)
      modifies this`card, this`queuedCount, this`drain, this`woken, this`handled, this`pc, fifo, fifo.ring
      ensures Happened(s0, trace, View())
      ensures !signalled ==> pc == if old(pc).TestNotFull? then Returning else Freeing
      ensures signalled ==> pc == if old(pc).TestNotFull? then AsleepFull else AsleepEmpty
    {
      trace := before;
      while !pc.Returning? && !pc.Freeing?
        invariant Happened(s0, trace, View())
        invariant if old(pc).TestNotFull? then pc.TestNotFull? || pc.AsleepFull? || pc.Returning?
                  else pc.TestEmpty? || pc.AsleepEmpty? || pc.Freeing?
        decreases Work(View())
      {
        signalled := *;
        if signalled && (pc.AsleepFull? || pc.AsleepEmpty?) {
          trace := Preempt(s0, trace);
          return;
        }
        trace := WaitRound(s0, trace);
      }
      signalled := false;
    }

    /** Lines 266-271: the ring was empty, so the command pair goes out directly, with the lock dropped. */
    method SendDirectly(count: int, ghost s0: State, ghost before: seq<Label>) returns (ghost trace: seq<Label>)
      requires Happened(s0, before, View()) && pc == Unlocked(count)
      modifies this`card, this`queuedCount, this`drain, this`woken, this`handled, this`pc, this`fill, fifo, fifo.ring
      ensures Happened(s0, trace, View()) && pc.Returning?
    {
      trace := Preempt(s0, before);
      trace := MoveFill(s0, trace);
      trace := Preempt(s0, trace);
      trace := SendAddress(s0, trace);
      trace := Preempt(s0, trace);
      trace := SendConfig(count, s0, trace);
      trace := Preempt(s0, trace);
      trace := SendHead(s0, trace);
    }

    /** start_dma after its locked section. The outcome of the wait is not looked at. */
    method Finish(count: int, wasEmpty: bool, suspend: bool, ghost s0: State, ghost before: seq<Label>)
      returns (buffer: nat, signalled: bool, ghost trace: seq<Label>)
      requires Happened(s0, before, View())
      requires pc == if wasEmpty then Unlocked(count) else if suspend then TestNotFull else Returning
      modifies this`card, this`queuedCount, this`drain, this`woken, this`handled, this`pc, this`fill, this`owned
      modifies fifo, fifo.ring
      ensures pc.User? && buffer == owned
      ensures if signalled then LeftEarly(s0, trace, View()) else Happened(s0, trace, View())
    {
      trace, signalled := before, false;
      if wasEmpty {
        trace := SendDirectly(count, s0, trace);
      } else if suspend {
        signalled, trace := WaitEvent(s0, trace);
      }
      if signalled {
        buffer := ReturnEarly(s0, trace);
      } else {
        trace := Preempt(s0, trace);
        buffer, trace := Return(s0, trace);
      }
    }

    /** Line 281 with the ring perhaps still full. */
    method ReturnEarly(ghost s0: State, ghost trace: seq<Label>) returns (buffer: nat)
      requires Happened(s0, trace, View()) && pc.AsleepFull?
      modifies this`pc, this`owned
      ensures LeftEarly(s0, trace, View()) && pc.User? && buffer == owned
    {
      ghost var m := View();
      buffer := fill;
      owned := fill;
      pc := User;
      assert View() == m.(pc := User, owned := m.fill);
    }

    /** start_dma past its checks. */
    method Submit(count: int) returns (buffer: nat, signalled: bool, ghost trace: seq<Label>)
      requires Inv(View()) && pc.User? && 1 <= count <= BUFFER_SIZE
      modifies this`card, this`queuedCount, this`drain, this`woken, this`handled, this`pc, this`fill, this`calls
      modifies this`owned, fifo, fifo.ring, storedCount
      ensures pc.User? && calls == old(calls) + [Call(old(owned), count)] && buffer == owned
      ensures if signalled then LeftEarly(old(View()), trace, View()) else Happened(old(View()), trace, View())
    {
      AcceptsRange(count);
      ghost var s0 := View();
      trace := HappenedFirst(s0, Start(count));
      var wasEmpty, suspend := LockedSection(count);
      buffer, signalled, trace := Finish(count, wasEmpty, suspend, s0, trace);
    }

    /** start_dma. The result is the index of the buffer whose user address is returned, or -1 for a
        return of 0. An accepted call submits the buffer the user held and hands back the next one. If no
        signal cut the wait short that one belongs to no call still queued or at the card; else it
        belongs to one exactly when the ring is full on return. */
    method StartDma(count: int) returns (buffer: int, signalled: bool, ghost trace: seq<Label>)
      requires Inv(View()) && pc.User? && -TWO_31 <= count < TWO_31
      modifies this, fifo, fifo.ring, storedCount
      ensures pc.User?
      ensures if signalled then LeftEarly(old(View()), trace, View()) else Happened(old(View()), trace, View())
      ensures !(1 <= count <= BUFFER_SIZE) ==> buffer == -1 && !signalled && View() == old(View())
      ensures 1 <= count <= BUFFER_SIZE ==>
                && calls == old(calls) + [Call(old(owned), count)] && buffer == owned
                && ((forall k :: handled <= k < |calls| ==> calls[k].buffer != buffer) <==> queuedCount != BUFFERS)
                && (!signalled ==> buffer == |calls| % BUFFERS && queuedCount < BUFFERS)
    {
      AcceptsRange(count);
      if count == 0 {
        return -1, false, [];
      }
      if U32(count) > BUFFER_SIZE {
        return -1, false, [];
      }
      buffer, signalled, trace := Submit(count);
      if signalled {
        HeldEarly(old(View()), trace, View());
      } else {
        HeldBuffer(View());
      }
    }

    /** Lines 225-230: past the wait, nothing is queued. */
    method FreeBuffers(ghost s0: State, ghost before: seq<Label>) returns (ghost trace: seq<Label>)
      requires Happened(s0, before, View()) && pc.Freeing?
      modifies this`pc
      ensures View() == Apply(old(View()), Thread) && Happened(s0, trace, View()) && pc.Unbound?
    {
      trace := HappenedNext(s0, before, View(), Thread);
      pc := Unbound;
    }

    /** Lines 223-230, up to the freeing of the buffers. If no signal cut the wait short every accepted
        call has been transferred; else this is so exactly when the ring had become empty. */
    method LateUnbindDma() returns (signalled: bool, ghost trace: seq<Label>)
      requires Inv(View()) && pc.User?
      modifies this, fifo, fifo.ring
      ensures pc.Unbound? && calls == old(calls)
      ensures (handled == |card.started| == card.completed == |calls| && !card.interrupt) <==> queuedCount == 0
      ensures !signalled ==> Happened(old(View()), trace, View()) && queuedCount == 0
      ensures signalled ==> FreedEarly(old(View()), trace, View())
    {
      ghost var s0 := View();
      trace := HappenedFirst(s0, DmaRing.Unbind);
      pc := TestEmpty;
      signalled, trace := WaitEvent(s0, trace);
      if signalled {
        FreeEarly(s0, trace);
      } else {
        trace := FreeBuffers(s0, trace);
        AllTransferred(View());
      }
    }

    /** Lines 225-230 with calls perhaps still queued. */
    method FreeEarly(ghost s0: State, ghost trace: seq<Label>)
      requires Happened(s0, trace, View()) && pc.AsleepEmpty?
      modifies this`pc
      ensures FreedEarly(s0, trace, View()) && pc.Unbound?
      ensures (handled == |card.started| == card.completed == |calls| && !card.interrupt) <==> queuedCount == 0
    {
      ghost var m := View();
      pc := Unbound;
      assert View() == m.(pc := Unbound);
      StillQueued(m);
    }

    // ---------- fifo_queue and fifo_flush ----------

    /** fifo_queue: whatever copy_from_user answers, the entry it left in the kernel goes out. */
    method FifoQueue(entry: Entry, copyResult: int) returns (ret: int)
      requires View().Shape() && Outside(pc)
      modifies fifo, fifo.ring
      ensures ret == copyResult && View() == old(View()).Fifo(Write(entry))
      ensures fifo.ring[old(fifo.head)] == entry && fifo.log.written == old(fifo.log.written) + [entry]
      ensures old(Inv(View()) && Enabled(View(), UserWrite(entry))) ==>
                View() == Apply(old(View()), UserWrite(entry)) && Inv(View())
    {
      ghost var s := View();
      fifo.Write(entry.command, entry.value);
      if Inv(s) && Enabled(s, UserWrite(entry)) {
        UserWriteKeeps(s, entry);
      }
      ret := copyResult;
    }

    /** Line 295 */
    method PublishAll(ghost s0: State) returns (ghost trace: seq<Label>)
      requires Inv(s0) && s0 == View() && Outside(pc)
      modifies fifo`fifoHead, fifo`log
      ensures View() == Apply(s0, UserPublish) && Happened(s0, trace, View())
    {
      trace := HappenedFirst(s0, UserPublish);
      fifo.PublishHead();
    }

    /** Line 297 */
    method LookAtTail(ghost s0: State, ghost before: seq<Label>) returns (ghost trace: seq<Label>)
      requires Happened(s0, before, View()) && Outside(pc)
      modifies fifo`tailCache, fifo`log
      ensures View() == Apply(old(View()), UserReadTail) && Happened(s0, trace, View())
    {
      trace := HappenedNext(s0, before, View(), UserReadTail);
      fifo.LookAtTail();
    }

    /** From one test of line 296 to the next; schedule() lets the card and the handler go on. */
    method FlushRound(ghost s0: State, ghost before: seq<Label>) returns (ghost trace: seq<Label>)
      requires Happened(s0, before, View()) && Outside(pc)
      modifies this`card, this`queuedCount, this`drain, this`woken, this`handled, fifo, fifo.ring
      ensures Happened(s0, trace, View()) && Round(old(View()), View())
    {
      ghost var a := View();
      trace := Preempt(s0, before);
      ghost var m := View();
      trace := LookAtTail(s0, trace);
      trace := Yield(m, s0, trace);
      assert Yields(a, m, View());
    }

    /** Line 298: at least one event, unless there is none. */
    method Yield(ghost m: State, ghost s0: State, ghost before: seq<Label>) returns (ghost trace: seq<Label>)
      requires Happened(s0, before, View()) && Enabled(m, UserReadTail) && View() == Apply(m, UserReadTail)
      modifies this`card, this`queuedCount, this`drain, this`woken, this`handled, fifo, fifo.ring
      ensures Happened(s0, trace, View()) && Drifts(old(View()), View()) && (View() == old(View()) ==> Quiet(m))
    {
      ghost var r := View();
      if MayGoOn() {
        trace := Event(s0, before);
        ghost var t := View();
        trace := Preempt(s0, trace);
        DriftsFurther(r, t, View());
      } else {
        trace := before;
        DriftsNowhere(r);
      }
    }

    /** Lines 295 and 296, up to the first test. */
    method BeginFlush() returns (ghost trace: seq<Label>)
      requires Inv(View()) && Outside(pc)
      modifies this`card, this`queuedCount, this`drain, this`woken, this`handled, fifo, fifo.ring
      ensures Happened(old(View()), trace, View()) && FlushBegun(old(View()), [View()])
    {
      ghost var s0 := View();
      trace := PublishAll(s0);
      trace := Preempt(s0, trace);
    }

    /** Lines 297-298, and the next test. */
    method NextRound(ghost s0: State, ghost before: seq<Label>, ghost tests: seq<State>)
      returns (ghost trace: seq<Label>, ghost tests': seq<State>)
      requires Testing(s0, before, tests, View()) && fifo.tailCache != fifo.head
      modifies this`card, this`queuedCount, this`drain, this`woken, this`handled, fifo, fifo.ring
      ensures Testing(s0, trace, tests', View()) && ToTest(View()) < old(ToTest(View()))
    {
      BegunKeeps(s0, tests);
      trace := FlushRound(s0, before);
      NextTest(s0, tests, View());
      tests' := tests + [View()];
    }

    /** fifo_flush, with the card and the handler acting anywhere in it. It returns; and if the caller
        saw to it, it returns with everything received. */
    method FifoFlush() returns (ghost trace: seq<Label>, ghost tests: seq<State>)
      requires Inv(View()) && Outside(pc)
      modifies this`card, this`queuedCount, this`drain, this`woken, this`handled, fifo, fifo.ring
      ensures Happened(old(View()), trace, View())
      ensures FlushRun(old(View()), tests) && tests[|tests| - 1] == View()
      ensures old(FlushSafe(View())) ==> fifo.received == fifo.log.written
    {
      ghost var s0 := View();
      trace := BeginFlush();
      tests := [View()];
      while fifo.tailCache != fifo.head
        invariant Testing(s0, trace, tests, View())
        decreases ToTest(View())
      {
        trace, tests := NextRound(s0, trace, tests);
      }
      Returned(s0, trace, tests, View());
    }

    /** Lines 211-217 of bind_dma, after the buffers were allocated. */
    method BindRing(buffers: seq<nat>) returns (buffer: nat)
      requires Inv(View()) && pc.Unbound? && |buffers| == BUFFERS
      modifies this
      ensures View() == Apply(old(View()), DmaRing.Bind(buffers)) && Inv(View()) && buffer == owned == 0
      ensures pBase == buffers && fill == drain == queuedCount == 0
    {
      BindKeeps(View(), buffers);
      pBase := buffers;
      fill, drain, queuedCount := 0, 0, 0;
      card := card.(started := [], completed := 0);
      pc, calls, handled, owned := User, [], 0, 0;
      buffer := fill;
    }
  }

  /** The labels of a trace lead from one state to another. */
  ghost predicate Happened(s: State, trace: seq<Label>, s': State) {
    Legal(s, trace) && Exec(s, trace) == s' && Inv(s')
  }

  lemma HappenedNext(s: State, trace: seq<Label>, m: State, l: Label) returns (trace': seq<Label>)
    requires Legal(s, trace) && Exec(s, trace) == m && Inv(m) && Enabled(m, l)
    ensures trace' == trace + [l] && Happened(s, trace', Apply(m, l))
  {
    trace' := trace + [l];
    StepKeeps(m, l);
    assert [l][1..] == [];
    assert Legal(Apply(m, l), []) && Exec(Apply(m, l), []) == Apply(m, l);
    ExecConcat(s, trace, [l]);
  }

  lemma HappenedFirst(s: State, l: Label) returns (trace: seq<Label>)
    requires Inv(s) && Enabled(s, l)
    ensures trace == [l] && Happened(s, trace, Apply(s, l))
  {
    trace := HappenedNext(s, [], s, l);
  }

  /** A run up to a sleep on dma_not_full, which the thread then left for the user. */
  ghost predicate LeftEarly(s0: State, trace: seq<Label>, s: State) {
    exists m :: Happened(s0, trace, m) && m.pc.AsleepFull? && s == m.(pc := User, owned := m.fill)
  }

  /** A run up to a sleep on dma_empty, from which the thread then went on to free the buffers. */
  ghost predicate FreedEarly(s0: State, trace: seq<Label>, s: State) {
    exists m :: Happened(s0, trace, m) && m.pc.AsleepEmpty? && s == m.(pc := Unbound)
  }

  lemma HeldEarly(s0: State, trace: seq<Label>, s: State)
    requires LeftEarly(s0, trace, s)
    ensures (forall k :: s.handled <= k < |s.calls| ==> s.calls[k].buffer != s.owned) <==> s.queuedCount != BUFFERS
  {
    var m :| Happened(s0, trace, m) && m.pc.AsleepFull? && s == m.(pc := User, owned := m.fill);
    HandedBuffer(m);
  }

  lemma StillQueued(s: State)
    requires Inv(s) && s.pc.AsleepEmpty?
    ensures (s.handled == |s.card.started| == s.card.completed == |s.calls| && !s.card.interrupt) <==>
            s.queuedCount == 0
  {
  }

  /** A call of fifo_flush from s0 is at its test. */
  ghost predicate Testing(s0: State, trace: seq<Label>, tests: seq<State>, s: State) {
    Inv(s0) && Happened(s0, trace, s) && FlushBegun(s0, tests) && tests[|tests| - 1] == s
  }

  lemma Returned(s0: State, trace: seq<Label>, tests: seq<State>, s: State)
    requires Testing(s0, trace, tests, s) && Passes(s)
    ensures FlushRun(s0, tests) && (FlushSafe(s0) ==> s.mem.received == s.log.written)
  {
    if FlushSafe(s0) {
      SafeFlush(s0, tests);
    }
  }

  lemma AllTransferred(s: State)
    requires Inv(s) && s.pc.Unbound?
    ensures s.queuedCount == 0 && s.handled == |s.calls| == |s.card.started| == s.card.completed && !s.card.interrupt
  {
  }

  /** The buffer a user thread holds is used by no call still queued. */
  lemma HeldBuffer(s: State)
    requires Inv(s) && s.pc.User?
    ensures s.owned == |s.calls| % BUFFERS && s.queuedCount < BUFFERS
    ensures forall k :: s.handled <= k < |s.calls| ==> s.calls[k].buffer != s.owned
  {
    forall k | s.handled <= k < |s.calls| ensures s.calls[k].buffer != s.owned {
      SlotsApart(k, |s.calls|);
    }
  }
}
