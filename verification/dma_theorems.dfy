/** The promises of the DMA ring over whole runs. */
module DmaTheorems {
  import opened CommandFifo
  import opened DmaRing
  import opened DmaSafety

  /** Some run of the driver, from kyouko3_open on, leads here. */
  ghost predicate Reachable(e: State) {
    exists s :: Initial(s) && Leads(s, e)
  }

  lemma ReachableInv(e: State)
    requires Reachable(e)
    ensures Inv(e)
  {
    var s :| Initial(s) && Leads(s, e);
    var labels :| Legal(s, labels) && Exec(s, labels) == e;
    InitialInv(s);
    RunKeeps(s, labels);
  }

  // ---------- transfers ----------

  /** The counts of the accepted start_dma calls since the last bind, read off the labels. */
  function Accepted(sofar: seq<int>, labels: seq<Label>): seq<int>
    decreases |labels|
  {
    if labels == [] then sofar
    else
      var l := labels[0];
      Accepted(if l.Bind? then [] else if l.Start? && Accepts(l.count) then sofar + [l.count] else sofar, labels[1..])
  }

  function Counts(calls: seq<Call>): seq<int> {
    seq(|calls|, i requires 0 <= i < |calls| => calls[i].count)
  }

  lemma {:induction false} CallsAreAccepted(s: State, labels: seq<Label>)
    requires Legal(s, labels)
    ensures Counts(Exec(s, labels).calls) == Accepted(Counts(s.calls), labels)
    decreases |labels|
  {
    if labels != [] {
      var l, s' := labels[0], Apply(s, labels[0]);
      assert Counts(s'.calls) == if l.Bind? then []
                                 else if l.Start? && Accepts(l.count) then Counts(s.calls) + [l.count]
                                 else Counts(s.calls);
      CallsAreAccepted(s', labels[1..]);
    }
  }

  lemma WantedCall(e: State, k: nat)
    requires Inv(e) && k < |e.calls|
    ensures e.calls[k].buffer == k % BUFFERS && 1 <= e.calls[k].count <= BUFFER_SIZE
    ensures Wanted(e, k) == Transfer(U32(e.pBase[k % BUFFERS]), e.calls[k].count)
    ensures k < |e.card.started| ==> e.card.started[k] == Wanted(e, k)
  {
  }

  /** A transfer of `count` bytes from bus address p, cut to the 32 bits of a FIFO entry. */
  predicate Moves(t: Transfer, p: nat, count: int) {
    && t.count == count && 1 <= count <= 126976
    && t.address < TWO_32 && (p - t.address) % TWO_32 == 0 && (p < TWO_32 ==> t.address == p)
  }

  lemma StartedTransfer(e: State, k: nat)
    requires Inv(e) && k < |e.card.started|
    ensures k < |e.calls| && Moves(e.card.started[k], e.pBase[k % BUFFERS], e.calls[k].count)
  {
    WantedCall(e, k);
    U32Word(e.pBase[k % BUFFERS]);
  }

  lemma StartedCount(e: State)
    requires Inv(e)
    ensures e.Shape() && |e.card.started| <= |e.calls|
  {
  }

  /** The bus addresses of the buffers last bound, read off the labels. */
  function BoundTo(sofar: seq<nat>, labels: seq<Label>): seq<nat>
    decreases |labels|
  {
    if labels == [] then sofar
    else BoundTo(if labels[0].Bind? then labels[0].pBase else sofar, labels[1..])
  }

  /** The ring always works on the buffers of the last bind. */
  lemma {:induction false} BuffersAreBound(s: State, labels: seq<Label>)
    requires Legal(s, labels)
    ensures Exec(s, labels).pBase == BoundTo(s.pBase, labels)
    decreases |labels|
  {
    if labels != [] {
      BuffersAreBound(Apply(s, labels[0]), labels[1..]);
    }
  }

  /** In every interleaving the transfers the card starts are a prefix of the accepted calls, in order
      and once each: the k-th since bind has the address of buffer k mod 8 of the last bind, cut to the
      32 bits of a FIFO entry, and the count of the k-th accepted call, whichever way the count
      travelled. */
  lemma TransfersInOrder(s: State, labels: seq<Label>, e: State, k: nat)
    requires Initial(s) && Legal(s, labels) && e == Exec(s, labels)
    ensures |e.card.started| <= |Accepted([], labels)| && e.Shape() && |BoundTo(s.pBase, labels)| == BUFFERS
    ensures k < |e.card.started| ==>
              Moves(e.card.started[k], BoundTo(s.pBase, labels)[k % BUFFERS], Accepted([], labels)[k])
  {
    InitialInv(s);
    RunKeeps(s, labels);
    StartedCount(e);
    FromInitial(s, labels);
    if k < |e.card.started| {
      StartedTransfer(e, k);
      assert Counts(e.calls)[k] == e.calls[k].count;
    }
  }

  lemma FromInitial(s: State, labels: seq<Label>)
    requires Initial(s) && Legal(s, labels)
    ensures Counts(Exec(s, labels).calls) == Accepted([], labels)
    ensures Exec(s, labels).pBase == BoundTo(s.pBase, labels)
  {
    CallsAreAccepted(s, labels);
    BuffersAreBound(s, labels);
    assert Counts(s.calls) == [];
  }

  // ---------- the user's own entries ----------

  /** The entries among some that are not DMA commands. */
  function Own(es: seq<Entry>): seq<Entry> {
    if es == [] then []
    else Own(es[..|es| - 1]) + if IsDma(es[|es| - 1]) then [] else [es[|es| - 1]]
  }

  /** What the user queued, read off the labels. */
  function UserWrites(labels: seq<Label>): seq<Entry> {
    if labels == [] then []
    else (if labels[0].UserWrite? then [labels[0].e] else []) + UserWrites(labels[1..])
  }

  lemma OwnSnoc(es: seq<Entry>, e: Entry)
    ensures Own(es + [e]) == Own(es) + if IsDma(e) then [] else [e]
  {
    assert (es + [e])[..|es|] == es;
  }

  lemma {:induction false} OwnPrefix(es: seq<Entry>, n: nat)
    requires n <= |es|
    ensures Own(es[..n]) <= Own(es)
  {
    if n < |es| {
      OwnPrefix(es[..|es| - 1], n);
      assert es[..|es| - 1][..n] == es[..n];
    } else {
      assert es[..n] == es;
    }
  }

  lemma StepOwn(s: State, l: Label)
    requires Enabled(s, l)
    ensures Own(Apply(s, l).log.written) == Own(s.log.written) + if l.UserWrite? then [l.e] else []
  {
    match l
    case UserWrite(e) => OwnSnoc(s.log.written, e);
    case Thread => ThreadOwn(s);
    case Interrupt =>
      var a := AddressEntry(s.pBase[Next(s.drain)]);
      OwnSnoc(s.log.written, a);
      OwnSnoc(s.log.written + [a], ConfigEntry(s.stored[Next(s.drain)]));
    case _ =>
  }

  lemma ThreadOwn(s: State)
    requires Enabled(s, Thread)
    ensures Own(Apply(s, Thread).log.written) == Own(s.log.written)
  {
    if s.pc.WriteAddress? {
      OwnSnoc(s.log.written, AddressEntry(s.pBase[s.drain]));
    } else if s.pc.WriteConfig? {
      OwnSnoc(s.log.written, ConfigEntry(s.pc.count));
    }
  }

  lemma {:induction false} RunOwn(s: State, labels: seq<Label>)
    requires Legal(s, labels)
    ensures Own(Exec(s, labels).log.written) == Own(s.log.written) + UserWrites(labels)
    decreases |labels|
  {
    if labels != [] {
      StepOwn(s, labels[0]);
      RunOwn(Apply(s, labels[0]), labels[1..]);
    }
  }

  /** In every interleaving the entries the card receives that are not DMA commands are a prefix of those
      the user queued, unchanged and in order; once nothing is unconsumed they are all of them. */
  lemma UserEntriesInOrder(s: State, labels: seq<Label>, e: State)
    requires Inv(s) && Legal(s, labels) && e == Exec(s, labels)
    ensures Own(e.mem.received) <= Own(s.log.written) + UserWrites(labels)
    ensures e.log.consumed == |e.log.written| ==> Own(e.mem.received) == Own(s.log.written) + UserWrites(labels)
  {
    RunKeeps(s, labels);
    RunOwn(s, labels);
    OwnPrefix(e.log.written, e.log.consumed);
    assert e.log.consumed == |e.log.written| ==> e.mem.received == e.log.written;
  }

  // ---------- the registers of the FIFO ----------

  predicate Publishes(s: State, l: Label) {
    l.UserPublish? || (l.Thread? && s.pc.PublishHead?) || (l.Interrupt? && s.queuedCount > 1)
  }

  ghost predicate RegistersMove(s: State, l: Label, t: State) {
    && t.log.published == (if Publishes(s, l) then |t.log.written| else s.log.published)
    && t.log.tailRead == (if l.UserReadTail? then s.log.consumed else s.log.tailRead)
    && t.log.consumed == s.log.consumed + (if l.CardConsume? then 1 else 0)
  }

  lemma ThreadRegisters(s: State)
    requires Enabled(s, Thread)
    ensures RegistersMove(s, Thread, Apply(s, Thread))
  {
  }

  lemma InterruptRegisters(s: State)
    requires Enabled(s, Interrupt) && s.queuedCount > 0
    ensures RegistersMove(s, Interrupt, Apply(s, Interrupt))
  {
  }

  /** The head is published at line 270, by a handler that sends the next call, and at line 295, up to the
      last entry written, and never else; the tail is read at line 297 only; and only the card consumes. */
  lemma FifoRegisters(s: State, l: Label)
    requires Inv(s) && Enabled(s, l)
    ensures RegistersMove(s, l, Apply(s, l))
  {
    match l
    case Thread => ThreadRegisters(s);
    case Interrupt =>
      HandlerCounts(s);
      InterruptRegisters(s);
    case CardConsume => SlotsDiffer(s.log.consumed, s.log.published);
    case _ =>
  }

  // ---------- the ring between the steps ----------

  lemma ModSum(h: nat, q: nat)
    ensures (h % BUFFERS + q) % BUFFERS == (h + q) % BUFFERS
  {
  }

  /** The queue count, and fill and drain against it, at every point; fill lags by one slot from the
      unlock until line 267. */
  lemma RingCounts(e: State)
    requires Reachable(e)
    ensures 0 <= e.queuedCount <= BUFFERS
    ensures (if e.pc.Unlocked? then Next(e.fill) else e.fill) == (e.drain + e.queuedCount) % BUFFERS
    ensures e.pc.User? ==> e.queuedCount < BUFFERS && (e.fill == e.drain <==> e.queuedCount == 0)
  {
    ReachableInv(e);
    ModSum(e.handled, e.queuedCount);
    if e.pc.Unlocked? {
      NextSlot(|e.calls| - 1);
    } else if e.pc.User? {
      MeetsWhenEmpty(e);
    }
  }

  /** Away from the lag the test of line 265 is true of an empty ring and of a full one, and of no
      other: it means "was empty" exactly for calls that do not enter with a full ring. */
  lemma EmptyOrFull(e: State)
    requires Reachable(e) && !e.pc.Unlocked?
    ensures e.fill == e.drain <==> e.queuedCount == 0 || e.queuedCount == BUFFERS
  {
    ReachableInv(e);
    if e.queuedCount > 0 {
      FullLap(e.handled, e.queuedCount);
    }
  }

  lemma HandedBuffer(e: State)
    requires Inv(e) && (e.pc.TestNotFull? || e.pc.AsleepFull? || e.pc.Returning?)
    ensures (forall k :: e.handled <= k < |e.calls| ==> e.calls[k].buffer != e.fill) <==> e.queuedCount != BUFFERS
  {
    if e.queuedCount == BUFFERS {
      FullLap(e.handled, e.queuedCount);
      WantedCall(e, e.handled);
    } else {
      forall k | e.handled <= k < |e.calls| ensures e.calls[k].buffer != e.fill {
        SlotsApart(k, |e.calls|);
      }
    }
  }

  /** What the wait of line 279 is for: the buffer about to be handed out is used by no queued call
      exactly when the ring is not full. */
  lemma WaitProtects(e: State)
    requires Reachable(e) && (e.pc.TestNotFull? || e.pc.AsleepFull? || e.pc.Returning?)
    ensures (forall k :: e.handled <= k < |e.calls| ==> e.calls[k].buffer != e.fill) <==> e.queuedCount != BUFFERS
  {
    ReachableInv(e);
    HandedBuffer(e);
  }

  /** Why the wait of line 279 must not be cut short: a thread that leaves it with the ring still full
      is handed the very buffer that is at the card, and its next call takes the path for an empty
      ring. */
  lemma CutShortWait(e: State, count: int)
    requires Reachable(e) && e.pc.AsleepFull? && !e.woken && 1 <= count <= BUFFER_SIZE
    ensures var user := e.(pc := User, owned := e.fill);
            && e.handled < |e.calls| && e.calls[e.handled].buffer == user.owned
            && Enabled(user, Start(count))
            && Apply(user, Start(count)).pc == Unlocked(count)
            && Apply(user, Start(count)).queuedCount == BUFFERS + 1
  {
    ReachableInv(e);
    EmptyOrFull(e);
    WantedCall(e, e.handled);
    AcceptsRange(count);
  }

  /** From the unlock at line 266 to the publish at line 270 no completion can occur and no completion
      interrupt is pending, so nothing races with the unlocked writes. */
  lemma WindowUndisturbed(e: State)
    requires Reachable(e) && InWindow(e.pc)
    ensures !Enabled(e, Interrupt) && !Enabled(e, CardComplete)
    ensures e.queuedCount == 1 && e.log.Shape() && Published(e.log) == []
  {
    ReachableInv(e);
  }

  /** Never two calls at the card. Outside the window a non-empty ring has exactly one there, the one
      in dma_buffers[drain]; an empty ring has none. */
  lemma SingleFlight(e: State)
    requires Reachable(e)
    ensures e.Shape() && e.log.Shape()
    ensures e.card.completed <= |e.card.started| <= e.card.completed + 1
    ensures !InWindow(e.pc) && e.queuedCount > 0 ==>
              && e.handled < |e.calls| && 0 < e.calls[e.handled].count
              && Outstanding(e, e.handled, Transfer(U32(e.pBase[e.drain]), e.calls[e.handled].count))
    ensures e.queuedCount == 0 ==> Idle(e, |e.calls|) && Dma(Unconsumed(e.log)) == []
  {
    ReachableInv(e);
    DmaParts(e.log);
    if e.queuedCount > 0 {
      WantedCall(e, e.handled);
    }
  }

  /** The DMA traffic alone never holds more than two FIFO entries, and every unconsumed entry in the
      ring is still the one that was written there. */
  lemma FifoNeverOverrun(e: State)
    requires Reachable(e)
    ensures Represents(e.mem, e.log) && |Dma(Unconsumed(e.log))| <= 2
  {
    ReachableInv(e);
    DmaParts(e.log);
  }

  // ---------- command pairs ----------

  /** Between an address and its config command the FIFO holds nothing else. */
  ghost predicate Adjacent(l: Log)
    requires l.Shape()
  {
    forall i :: l.consumed < i < |l.written| && l.written[i].command == BUFFER_A_CONFIG ==>
      l.written[i - 1].command == BUFFER_A_ADDRESS
  }

  ghost predicate PairsKept(s: State) {
    && s.log.Shape() && Adjacent(s.log)
    && (s.pc.WriteConfig? ==> s.log.written != [] && s.log.written[|s.log.written| - 1].command == BUFFER_A_ADDRESS)
  }

  lemma {:induction false} DmaMembers(es: seq<Entry>)
    ensures forall e :: e in Dma(es) <==> e in es && IsDma(e)
  {
    if es != [] {
      DmaMembers(es[..|es| - 1]);
      assert es == es[..|es| - 1] + [es[|es| - 1]];
    }
  }

  lemma WriteAdjacent(l: Log, e: Entry)
    requires l.Shape() && Adjacent(l)
    requires e.command == BUFFER_A_CONFIG ==>
               l.written != [] && l.written[|l.written| - 1].command == BUFFER_A_ADDRESS
    ensures Adjacent(l.Do(Write(e)))
  {
  }

  lemma ThreadPairs(s: State)
    requires Inv(s) && Enabled(s, Thread) && PairsKept(s)
    ensures PairsKept(Apply(s, Thread))
  {
    if s.pc.WriteAddress? {
      AddressPairs(s);
    } else if s.pc.WriteConfig? {
      WriteAdjacent(s.log, ConfigEntry(s.pc.count));
    } else {
      assert Apply(s, Thread).log.written == s.log.written;
      NoMoreWritten(s, Apply(s, Thread));
    }
  }

  lemma AddressPairs(s: State)
    requires Enabled(s, Thread) && PairsKept(s) && s.pc.WriteAddress?
    ensures PairsKept(Apply(s, Thread))
  {
    WriteAdjacent(s.log, AddressEntry(s.pBase[s.drain]));
  }

  lemma InterruptPairs(s: State)
    requires Inv(s) && Enabled(s, Interrupt) && PairsKept(s)
    ensures PairsKept(Apply(s, Interrupt))
  {
    HandlerCounts(s);
    var a := AddressEntry(s.pBase[Next(s.drain)]);
    WriteAdjacent(s.log, a);
    WriteAdjacent(s.log.Do(Write(a)), ConfigEntry(s.stored[Next(s.drain)]));
  }

  lemma StepPairs(s: State, l: Label)
    requires Inv(s) && Enabled(s, l) && PairsKept(s)
    ensures PairsKept(Apply(s, l))
  {
    match l
    case UserWrite(e) => WriteAdjacent(s.log, e);
    case Thread => ThreadPairs(s);
    case Interrupt => InterruptPairs(s);
    case _ => OtherPairs(s, l);
  }

  lemma OtherPairs(s: State, l: Label)
    requires Inv(s) && Enabled(s, l) && PairsKept(s) && !l.UserWrite? && !l.Thread? && !l.Interrupt?
    ensures PairsKept(Apply(s, l))
  {
    NoMoreWritten(s, Apply(s, l));
  }

  lemma NoMoreWritten(s: State, t: State)
    requires PairsKept(s) && t.log.Shape() && t.log.written == s.log.written && s.log.consumed <= t.log.consumed
    requires t.pc.WriteConfig? ==> s.pc.WriteConfig?
    ensures PairsKept(t)
  {
  }

  lemma {:induction false} RunPairs(s: State, labels: seq<Label>)
    requires Inv(s) && PairsKept(s) && Legal(s, labels)
    ensures PairsKept(Exec(s, labels))
    decreases |labels|
  {
    if labels != [] {
      StepKeeps(s, labels[0]);
      StepPairs(s, labels[0]);
      RunPairs(Apply(s, labels[0]), labels[1..]);
    }
  }

  /** Although the thread writes its commands unlocked, nothing ever comes between the two of a pair: a
      config stands right behind an address, or else it is the next entry the card takes. */
  lemma PairsAdjacent(e: State)
    requires Reachable(e)
    ensures e.log.Shape() && Adjacent(e.log)
    ensures |Published(e.log)| == 1 ==> e.log.consumed < e.log.published && IsDma(e.log.written[e.log.consumed])
  {
    ReachableInv(e);
    var s :| Initial(s) && Leads(s, e);
    var labels :| Legal(s, labels) && Exec(s, labels) == e;
    InitialInv(s);
    InitialPairs(s);
    RunPairs(s, labels);
    if |Published(e.log)| == 1 {
      LoneConfig(e);
    }
  }

  lemma InitialPairs(s: State)
    requires Initial(s)
    ensures PairsKept(s)
  {
    DmaMembers(Unconsumed(s.log));
    forall i | s.log.consumed < i < |s.log.written| ensures s.log.written[i].command != BUFFER_A_CONFIG {
      var e := Unconsumed(s.log)[i - s.log.consumed];
      assert s.log.written[i] == e && e in Unconsumed(s.log);
    }
  }

  lemma LoneConfig(e: State)
    requires Inv(e) && Adjacent(e.log) && |Published(e.log)| == 1
    ensures e.log.consumed < e.log.published && IsDma(e.log.written[e.log.consumed])
  {
    var es, c := e.log.written[e.log.consumed..e.log.published], Published(e.log)[0];
    DmaMembers(es);
    assert c in Published(e.log) && c.command == BUFFER_A_CONFIG;
    var i :| 0 <= i < |es| && es[i] == c;
    if i > 0 {
      AddressBefore(e.log, i);
      assert false;
    }
  }

  lemma AddressBefore(l: Log, i: nat)
    requires l.Shape() && Adjacent(l) && 0 < i < l.published - l.consumed
    requires l.written[l.consumed..l.published][i].command == BUFFER_A_CONFIG
    ensures var a := l.written[l.consumed..l.published][i - 1];
            a.command == BUFFER_A_ADDRESS && a in Published(l)
  {
    DmaMembers(l.written[l.consumed..l.published]);
    assert l.written[l.consumed + i].command == BUFFER_A_CONFIG;
  }

  // ---------- buffers and their owner ----------

  /** The buffer the user holds belongs to no call that is queued, at the card, or awaiting its
      interrupt. */
  lemma UserOwnsBuffer(e: State, k: nat)
    requires Reachable(e) && e.pc.User? && k < |e.calls| && e.calls[k].buffer == e.owned
    ensures k < e.handled && k < e.card.completed
  {
    ReachableInv(e);
    WantedCall(e, k);
    if e.handled <= k {
      SlotsApart(k, |e.calls|);
    }
  }

  predicate Submits(l: Label) {
    l.Unbind? || (l.Start? && Accepts(l.count))
  }

  lemma StepKeepsBuffer(s: State, l: Label)
    requires s.pc.User? && Enabled(s, l) && !Submits(l)
    ensures Apply(s, l).pc.User? && Apply(s, l).owned == s.owned && Apply(s, l).calls == s.calls
  {
  }

  /** It stays the user's until the next accepted call: through rejected calls, interrupts and
      whatever the card does. */
  lemma {:induction false} BufferKept(s: State, labels: seq<Label>)
    requires s.pc.User? && Legal(s, labels) && forall l :: l in labels ==> !Submits(l)
    ensures Exec(s, labels).pc.User? && Exec(s, labels).owned == s.owned && Exec(s, labels).calls == s.calls
    decreases |labels|
  {
    if labels != [] {
      StepKeepsBuffer(s, labels[0]);
      BufferKept(Apply(s, labels[0]), labels[1..]);
    }
  }

  // ---------- waiting ----------

  /** Nobody sleeps through its wakeup: a sleeping producer has been woken exactly when the ring is no
      longer full, a sleeping teardown exactly when it is empty. */
  lemma WakeupsSuffice(e: State)
    requires Reachable(e)
    ensures e.pc.AsleepFull? ==> (Enabled(e, Thread) <==> e.queuedCount != BUFFERS)
    ensures e.pc.AsleepEmpty? ==> (Enabled(e, Thread) <==> e.queuedCount == 0)
  {
    ReachableInv(e);
  }

  predicate InCall(pc: Pc) {
    !pc.User? && !pc.Unbound?
  }

  function PcWeight(s: State): nat {
    match s.pc
    case Unlocked(_) => 11
    case WriteAddress(_) => 10
    case WriteConfig(_) => 6
    case PublishHead => 2
    case TestNotFull => if s.queuedCount == BUFFERS then 4 else 2
    case AsleepFull => 3
    case Returning => 1
    case TestEmpty => if s.queuedCount == 0 then 2 else 4
    case AsleepEmpty => 3
    case Freeing => 1
    case _ => 0
  }

  /** How much work is left before the call in progress can return. */
  function Work(s: State): int
    requires s.log.Shape()
  {
    12 * s.queuedCount + 3 * |Unconsumed(s.log)| + 2 * (|s.card.started| - s.card.completed)
    + (if s.card.interrupt then 1 else 0) + PcWeight(s)
  }

  lemma WorkPositive(s: State)
    requires Inv(s)
    ensures Work(s) >= 0
  {
  }

  lemma ThreadFifoWork(s: State)
    requires Inv(s) && Enabled(s, Thread) && (s.pc.WriteAddress? || s.pc.WriteConfig? || s.pc.PublishHead?)
    ensures Apply(s, Thread).log.Shape() && Work(Apply(s, Thread)) < Work(s)
  {
  }

  lemma ThreadWork(s: State)
    requires Inv(s) && Enabled(s, Thread)
    ensures Apply(s, Thread).log.Shape() && Work(Apply(s, Thread)) < Work(s)
  {
    if s.pc.WriteAddress? || s.pc.WriteConfig? || s.pc.PublishHead? {
      ThreadFifoWork(s);
    } else {
      assert Apply(s, Thread).log == s.log && Apply(s, Thread).card == s.card;
      assert Apply(s, Thread).queuedCount == s.queuedCount && PcWeight(Apply(s, Thread)) < PcWeight(s);
    }
  }

  lemma InterruptWork(s: State)
    requires Inv(s) && Enabled(s, Interrupt)
    ensures Apply(s, Interrupt).log.Shape() && Work(Apply(s, Interrupt)) < Work(s)
  {
    HandlerCounts(s);
  }

  lemma ConsumeWork(s: State)
    requires Inv(s) && Enabled(s, CardConsume)
    ensures Apply(s, CardConsume).log.Shape() && Work(Apply(s, CardConsume)) < Work(s)
  {
    SlotsDiffer(s.log.consumed, s.log.published);
  }

  /** What the card and the handler do by themselves. */
  predicate IsEvent(l: Label) {
    l.CardConsume? || l.CardComplete? || l.Interrupt?
  }

  /** Wherever the thread is, each of these leaves less to do. */
  lemma EventShrinks(s: State, l: Label)
    requires Inv(s) && IsEvent(l) && Enabled(s, l)
    ensures Inv(Apply(s, l)) && Work(Apply(s, l)) < Work(s)
    ensures Apply(s, l).pc == s.pc
    ensures s.log.published == |s.log.written| ==> Apply(s, l).log.published == |Apply(s, l).log.written|
  {
    StepKeeps(s, l);
    match l
    case CardConsume => ConsumeWork(s);
    case CardComplete =>
    case Interrupt => InterruptWork(s);
  }

  /** While the thread is inside a call, whatever happens next leaves less to do. */
  lemma WorkShrinks(s: State, l: Label)
    requires Inv(s) && InCall(s.pc) && Enabled(s, l)
    ensures Inv(Apply(s, l)) && Work(Apply(s, l)) < Work(s)
  {
    if l.Thread? {
      StepKeeps(s, l);
      ThreadWork(s);
    } else {
      EventShrinks(s, l);
    }
  }

  /** What can happen next to a thread inside a call. */
  ghost function NextStep(s: State): Label
    requires s.log.Shape()
  {
    if !(s.pc.AsleepFull? || s.pc.AsleepEmpty?) || s.woken then Thread
    else if s.card.interrupt then Interrupt
    else if s.card.completed < |s.card.started| then CardComplete
    else CardConsume
  }

  /** No call is ever stuck: a sleeping thread has a queued call before it, and for that one a command
      waits in the FIFO, a transfer runs, or an interrupt is pending. */
  lemma NeverStuck(s: State)
    requires Inv(s) && InCall(s.pc)
    ensures Enabled(s, NextStep(s))
  {
    if NextStep(s).CardConsume? {
      assert Published(s.log) != [];
      assert s.log.consumed < s.log.published;
      SlotsDiffer(s.log.consumed, s.log.published);
    }
  }

  ghost predicate StaysInCall(s: State, labels: seq<Label>)
    requires Legal(s, labels)
    decreases |labels|
  {
    labels != [] ==> InCall(s.pc) && StaysInCall(Apply(s, labels[0]), labels[1..])
  }

  /** So every call of start_dma and late_unbind_dma returns: no run stays inside it for more steps
      than the work that was left. */
  lemma {:induction false} CallsReturn(s: State, labels: seq<Label>)
    requires Inv(s) && Legal(s, labels) && StaysInCall(s, labels)
    ensures |labels| <= Work(s)
    decreases |labels|
  {
    if labels == [] {
      WorkPositive(s);
    } else {
      WorkShrinks(s, labels[0]);
      CallsReturn(Apply(s, labels[0]), labels[1..]);
    }
  }

  // ---------- teardown ----------

  /** late_unbind_dma frees the buffers only when every accepted call has been transferred and
      acknowledged, and nothing of the DMA is left in the FIFO or at the card. */
  lemma TeardownSafe(e: State)
    requires Reachable(e) && (e.pc.Freeing? || e.pc.Unbound?)
    ensures e.queuedCount == 0 && e.handled == |e.calls| == |e.card.started| == e.card.completed
    ensures !e.card.interrupt && e.log.Shape() && Dma(Unconsumed(e.log)) == []
    ensures !Enabled(e, CardComplete) && !Enabled(e, Interrupt)
  {
    ReachableInv(e);
    DmaParts(e.log);
  }

  /** What the wait of line 223 is for: no call is queued, at the card or awaiting its interrupt exactly
      when the ring is empty. */
  lemma TeardownProtects(e: State)
    requires Reachable(e) && (e.pc.TestEmpty? || e.pc.AsleepEmpty?)
    ensures e.log.Shape()
    ensures (e.handled == e.card.completed == |e.calls| && Dma(Unconsumed(e.log)) == []) <==> e.queuedCount == 0
  {
    SingleFlight(e);
    ReachableInv(e);
  }

  /** Why that wait must not be cut short either: a thread that leaves it before its wakeup frees, with
      the others, the buffer whose transfer is still to come, under way, or to be acknowledged. */
  lemma CutShortTeardown(e: State)
    requires Reachable(e) && e.pc.AsleepEmpty? && !e.woken
    ensures e.Shape() && e.log.Shape() && e.handled < |e.calls| && e.calls[e.handled].buffer == e.drain
    ensures 0 < e.calls[e.handled].count
    ensures Outstanding(e, e.handled, Transfer(U32(e.pBase[e.drain]), e.calls[e.handled].count))
  {
    SingleFlight(e);
    ReachableInv(e);
    WantedCall(e, e.handled);
  }

  function Interrupts(labels: seq<Label>): nat {
    if labels == [] then 0 else (if labels[0].Interrupt? then 1 else 0) + Interrupts(labels[1..])
  }

  lemma StepQueued(s: State, l: Label)
    requires Inv(s) && Enabled(s, l) && !l.Start? && !l.Bind?
    ensures Apply(s, l).queuedCount == s.queuedCount - if l.Interrupt? then 1 else 0
  {
  }

  /** With no further producer call, the way from any state to the freeing takes exactly one interrupt
      per queued call. */
  lemma {:induction false} TeardownCompletions(s: State, labels: seq<Label>)
    requires Inv(s) && Legal(s, labels) && forall l :: l in labels ==> !l.Start? && !l.Bind?
    ensures Exec(s, labels).queuedCount == s.queuedCount - Interrupts(labels)
    ensures Exec(s, labels).pc.Freeing? ==> Interrupts(labels) == s.queuedCount
    decreases |labels|
  {
    if labels != [] {
      StepKeeps(s, labels[0]);
      StepQueued(s, labels[0]);
      TeardownCompletions(Apply(s, labels[0]), labels[1..]);
    }
  }
}
