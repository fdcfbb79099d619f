/** What every interleaving of the DMA ring keeps. */
module DmaSafety {
  import opened CommandFifo
  import opened DmaRing

  // ---------- the invariant ----------

  /** The transfer the k-th accepted call asks for. */
  function Wanted(s: State, k: nat): Transfer
    requires s.Shape() && k < |s.calls| && s.calls[k].buffer < BUFFERS
  {
    Transfer(U32(s.pBase[s.calls[k].buffer]), U32(s.calls[k].count))
  }

  /** fill and drain are the counts of accepted and completed calls modulo 8, except that fill lags
      by one slot until line 267. The ring is full only around the wait. */
  ghost predicate Counters(s: State) {
    && s.Shape()
    && 0 <= s.queuedCount <= BUFFERS && |s.calls| == s.handled + s.queuedCount
    && s.drain == s.handled % BUFFERS
    && (s.pc.Unlocked? ==> s.fill == (|s.calls| - 1) % BUFFERS)
    && (!s.pc.Unlocked? ==> s.fill == |s.calls| % BUFFERS)
    && (s.pc.TestNotFull? || s.pc.AsleepFull? || s.queuedCount < BUFFERS)
    && (InWindow(s.pc) ==> s.queuedCount == 1)
    && (s.pc.Freeing? || s.pc.Unbound? ==> s.queuedCount == 0)
  }

  /** Between the unlock at line 266 and the publish at line 270. */
  predicate InWindow(pc: Pc) {
    pc.Unlocked? || pc.WriteAddress? || pc.WriteConfig? || pc.PublishHead?
  }

  predicate WindowCount(pc: Pc, count: int) {
    match pc
    case Unlocked(c) => c == count
    case WriteAddress(c) => c == count
    case WriteConfig(c) => c == count
    case _ => true
  }

  /** Calls use the buffers in turn, and every queued call but the oldest has its count in its slot. */
  ghost predicate Slots(s: State)
    requires Counters(s)
  {
    && (forall k :: 0 <= k < |s.calls| ==> s.calls[k].buffer == k % BUFFERS && 1 <= s.calls[k].count <= BUFFER_SIZE)
    && (forall k :: s.handled < k < |s.calls| ==> s.stored[k % BUFFERS] == s.calls[k].count)
    && (s.queuedCount > 0 ==> WindowCount(s.pc, s.calls[s.handled].count))
  }

  ghost function Published(l: Log): seq<Entry>
    requires l.Shape()
  {
    Dma(l.written[l.consumed..l.published])
  }

  ghost function Unpublished(l: Log): seq<Entry>
    requires l.Shape()
  {
    Dma(l.written[l.published..])
  }

  /** The card is done with the first n calls, and nothing of the next one has been published. */
  ghost predicate Idle(s: State, n: nat)
    requires s.log.Shape()
  {
    Published(s.log) == [] && |s.card.started| == n && s.card.completed == n && !s.card.interrupt
  }

  /** Exactly the n-th call is at the card: its command pair waits in the FIFO, or half of it, or it
      is being transferred, or its completion waits for the handler. */
  ghost predicate Outstanding(s: State, n: nat, t: Transfer)
    requires s.log.Shape()
  {
    var a, c := Entry(BUFFER_A_ADDRESS, t.address), Entry(BUFFER_A_CONFIG, t.count);
    || (Published(s.log) == [a, c] && |s.card.started| == n && s.card.completed == n && !s.card.interrupt)
    || (Published(s.log) == [c] && s.card.address == t.address
        && |s.card.started| == n && s.card.completed == n && !s.card.interrupt)
    || (Published(s.log) == [] && |s.card.started| == n + 1 && s.card.completed == n && !s.card.interrupt)
    || (Published(s.log) == [] && |s.card.started| == n + 1 && s.card.completed == n + 1 && s.card.interrupt)
  }

  /** The transfers started are those of the accepted calls, one by one. */
  ghost predicate InOrder(s: State)
    requires Counters(s) && Slots(s)
  {
    && |s.card.started| <= |s.calls|
    && forall k :: 0 <= k < |s.card.started| ==> s.card.started[k] == Wanted(s, k)
  }

  ghost predicate Flight(s: State)
    requires Counters(s) && Slots(s) && s.log.Shape()
  {
    if s.queuedCount == 0 || s.pc.Unlocked? || s.pc.WriteAddress? then
      Idle(s, s.handled) && Unpublished(s.log) == []
    else
      var t := Wanted(s, s.handled);
      var a, c := Entry(BUFFER_A_ADDRESS, t.address), Entry(BUFFER_A_CONFIG, t.count);
      if s.pc.WriteConfig? then Idle(s, s.handled) && Unpublished(s.log) == [a]
      else if s.pc.PublishHead? then Idle(s, s.handled) && Unpublished(s.log) == [a, c]
      else Outstanding(s, s.handled, t) && Unpublished(s.log) == []
  }

  /** The ring stands for the log, and the user's own entries leave room for one command pair. */
  ghost predicate FifoExact(s: State) {
    Represents(s.mem, s.log) && Backlog(s.log) < FIFO_ENTRIES - 2
  }

  /** A sleeper has been woken exactly when the condition it waits for holds. */
  ghost predicate NoLostWakeup(s: State) {
    && (s.pc.AsleepFull? ==> (s.woken <==> s.queuedCount != BUFFERS))
    && (s.pc.AsleepEmpty? ==> (s.woken <==> s.queuedCount == 0))
  }

  /** The user holds the buffer of the next call. */
  ghost predicate Ownership(s: State) {
    s.pc.User? ==> s.owned == |s.calls| % BUFFERS
  }

  ghost predicate Inv(s: State) {
    && Counters(s) && Slots(s) && FifoExact(s) && InOrder(s) && Flight(s) && NoLostWakeup(s) && Ownership(s)
  }

  // ---------- DMA commands in the log ----------

  lemma {:induction false} DmaConcat(a: seq<Entry>, b: seq<Entry>)
    ensures Dma(a + b) == Dma(a) + Dma(b)
  {
    if b == [] {
      assert a + b == a;
    } else {
      assert (a + b)[..|a + b| - 1] == a + b[..|b| - 1];
      DmaConcat(a, b[..|b| - 1]);
    }
  }

  lemma DmaOne(e: Entry)
    ensures Dma([e]) == if IsDma(e) then [e] else []
  {
    assert [e][..0] == [];
  }

  lemma DmaParts(l: Log)
    requires l.Shape()
    ensures Dma(Unconsumed(l)) == Published(l) + Unpublished(l)
  {
    assert Unconsumed(l) == l.written[l.consumed..l.published] + l.written[l.published..];
    DmaConcat(l.written[l.consumed..l.published], l.written[l.published..]);
  }

  lemma LogWrite(l: Log, e: Entry)
    requires l.Shape()
    ensures var l' := l.Do(Write(e));
            && l'.Shape() && Published(l') == Published(l)
            && Unpublished(l') == Unpublished(l) + (if IsDma(e) then [e] else [])
            && Backlog(l') == Backlog(l) + (if IsDma(e) then 0 else 1)
  {
    var l' := l.Do(Write(e));
    assert l'.written[l.consumed..l.published] == l.written[l.consumed..l.published];
    assert l'.written[l.published..] == l.written[l.published..] + [e];
    DmaConcat(l.written[l.published..], [e]);
    DmaOne(e);
    DmaParts(l);
    DmaParts(l');
  }

  lemma LogPublish(l: Log)
    requires l.Shape()
    ensures var l' := l.Do(Publish);
            && l'.Shape() && Published(l') == Published(l) + Unpublished(l) && Unpublished(l') == []
            && Backlog(l') == Backlog(l)
  {
    var l' := l.Do(Publish);
    DmaParts(l);
    assert l'.written[l'.consumed..l'.published] == Unconsumed(l);
    assert l'.written[l'.published..] == [];
  }

  lemma LogConsume(l: Log)
    requires l.Shape() && l.consumed < l.published
    ensures var l', e := l.Do(Consume), l.written[l.consumed];
            && l'.Shape() && Unpublished(l') == Unpublished(l)
            && Published(l) == (if IsDma(e) then [e] else []) + Published(l')
            && Backlog(l') <= Backlog(l)
  {
    var l', e := l.Do(Consume), l.written[l.consumed];
    assert l.written[l.consumed..l.published] == [e] + l'.written[l'.consumed..l'.published];
    DmaConcat([e], l'.written[l'.consumed..l'.published]);
    DmaOne(e);
    DmaParts(l);
    DmaParts(l');
  }

  /** With at most two DMA commands unconsumed there is room for every write the driver makes. */
  lemma RoomForOne(l: Log)
    requires l.Shape() && Backlog(l) < FIFO_ENTRIES - 2 && |Published(l) + Unpublished(l)| < 2
    ensures l.Room()
  {
    DmaParts(l);
  }

  // ---------- each step keeps the invariant ----------

  lemma SlotsApart(i: nat, j: nat)
    requires i <= j < i + BUFFERS
    ensures i % BUFFERS == j % BUFFERS <==> i == j
  {
  }

  lemma NextSlot(n: nat)
    ensures Next(n % BUFFERS) == (n + 1) % BUFFERS
  {
  }

  /** The test of line 265: fill meets drain exactly when the ring was empty. */
  lemma MeetsWhenEmpty(s: State)
    requires Inv(s) && s.pc.User?
    ensures s.fill == s.drain <==> s.queuedCount == 0
  {
    SlotsApart(s.handled, |s.calls|);
  }

  /** The test of line 277: after the increment fill meets drain exactly when the ring is now full. */
  lemma MeetsWhenFull(s: State)
    requires Inv(s) && s.pc.User? && s.queuedCount > 0
    ensures Next(s.fill) == (|s.calls| + 1) % BUFFERS
    ensures Next(s.fill) == s.drain <==> s.queuedCount + 1 == BUFFERS
  {
    NextSlot(|s.calls|);
    FullLap(s.handled, s.queuedCount + 1);
  }

  lemma FullLap(h: nat, q: nat)
    requires 0 < q <= BUFFERS
    ensures (h + q) % BUFFERS == h % BUFFERS <==> q == BUFFERS
  {
  }

  /** What a step does not touch it keeps. */
  lemma Untouched(s: State, s': State)
    requires Inv(s) && s'.mem.Shape()
    requires s'.fill == s.fill && s'.drain == s.drain && s'.queuedCount == s.queuedCount && s'.stored == s.stored
    requires s'.pBase == s.pBase && s'.calls == s.calls && s'.handled == s.handled
    requires s'.pc == s.pc && s'.owned == s.owned && s'.woken == s.woken
    ensures Counters(s') && Slots(s') && NoLostWakeup(s') && Ownership(s')
    ensures forall k :: 0 <= k < |s.calls| ==> Wanted(s', k) == Wanted(s, k)
  {
  }

  lemma BindKeeps(s: State, pBase: seq<nat>)
    requires Inv(s) && Enabled(s, Bind(pBase))
    ensures Inv(Apply(s, Bind(pBase)))
  {
  }

  lemma StartEmptyKeeps(s: State, count: int)
    requires Inv(s) && Enabled(s, Start(count)) && Accepts(count) && s.queuedCount == 0
    ensures Inv(Apply(s, Start(count)))
  {
    MeetsWhenEmpty(s);
    AcceptsRange(count);
    var s' := Apply(s, Start(count));
    assert forall k :: 0 <= k < |s.calls| ==> s'.calls[k] == s.calls[k];
  }

  lemma StartQueuedKeeps(s: State, count: int)
    requires Inv(s) && Enabled(s, Start(count)) && Accepts(count) && s.queuedCount > 0
    ensures Inv(Apply(s, Start(count)))
  {
    MeetsWhenEmpty(s);
    MeetsWhenFull(s);
    var s', n := Apply(s, Start(count)), |s.calls|;
    assert Counters(s');
    StartStores(s, count);
    assert forall k :: 0 <= k < n ==> Wanted(s', k) == Wanted(s, k);
    assert InOrder(s') && Flight(s');
  }

  lemma StartStores(s: State, count: int)
    requires Inv(s) && Enabled(s, Start(count)) && Accepts(count) && s.queuedCount > 0
    requires s.fill != s.drain && Counters(Apply(s, Start(count)))
    ensures Slots(Apply(s, Start(count)))
  {
    var s', n := Apply(s, Start(count)), |s.calls|;
    AcceptsRange(count);
    assert forall k :: 0 <= k < n ==> s'.calls[k] == s.calls[k];
    forall k | s.handled < k < n + 1 ensures s'.stored[k % BUFFERS] == s'.calls[k].count {
      SlotsApart(k, n);
    }
  }

  lemma UserWriteKeeps(s: State, e: Entry)
    requires Inv(s) && Enabled(s, UserWrite(e))
    ensures Inv(Apply(s, UserWrite(e)))
  {
    DmaParts(s.log);
    LogWrite(s.log, e);
    StepRepresents(s.mem, s.log, Write(e));
    Untouched(s, s.Fifo(Write(e)));
  }

  lemma UserPublishKeeps(s: State)
    requires Inv(s) && Enabled(s, UserPublish)
    ensures Inv(Apply(s, UserPublish))
  {
    LogPublish(s.log);
    StepRepresents(s.mem, s.log, Publish);
    Untouched(s, s.Fifo(Publish));
  }

  lemma UserReadTailKeeps(s: State)
    requires Inv(s) && Enabled(s, UserReadTail)
    ensures Inv(Apply(s, UserReadTail))
  {
    StepRepresents(s.mem, s.log, ReadTail);
    Untouched(s, s.Fifo(ReadTail));
  }

  lemma WriteAddressKeeps(s: State)
    requires Inv(s) && Enabled(s, Thread) && s.pc.WriteAddress?
    ensures Inv(Apply(s, Thread))
  {
    var e := AddressEntry(s.pBase[s.drain]);
    RoomForOne(s.log);
    LogWrite(s.log, e);
    StepRepresents(s.mem, s.log, Write(e));
    Untouched(s, s.Fifo(Write(e)));
  }

  lemma WriteConfigKeeps(s: State)
    requires Inv(s) && Enabled(s, Thread) && s.pc.WriteConfig?
    ensures Inv(Apply(s, Thread))
  {
    var e := ConfigEntry(s.pc.count);
    RoomForOne(s.log);
    LogWrite(s.log, e);
    StepRepresents(s.mem, s.log, Write(e));
    Untouched(s, s.Fifo(Write(e)));
  }

  lemma PublishHeadKeeps(s: State)
    requires Inv(s) && Enabled(s, Thread) && s.pc.PublishHead?
    ensures Inv(Apply(s, Thread))
  {
    LogPublish(s.log);
    StepRepresents(s.mem, s.log, Publish);
    Untouched(s, s.Fifo(Publish));
  }

  lemma UnlockedKeeps(s: State)
    requires Inv(s) && Enabled(s, Thread) && s.pc.Unlocked?
    ensures Inv(Apply(s, Thread))
  {
    var s' := Apply(s, Thread);
    NextSlot(|s.calls| - 1);
    assert forall k :: 0 <= k < |s.calls| ==> Wanted(s', k) == Wanted(s, k);
  }

  /** Outside the window only the thread itself depends on where it is. */
  lemma ElsewhereKeeps(s: State, pc: Pc, woken: bool, owned: nat)
    requires Inv(s) && !InWindow(s.pc) && !InWindow(pc)
    ensures var s' := s.(pc := pc, woken := woken, owned := owned);
            Counters(s') ==> Slots(s') && InOrder(s') && Flight(s')
  {
    var s' := s.(pc := pc, woken := woken, owned := owned);
    assert forall k :: 0 <= k < |s.calls| ==> s.calls[k].buffer == k % BUFFERS;
    assert Counters(s') ==> forall k :: 0 <= k < |s.calls| ==> Wanted(s', k) == Wanted(s, k);
  }

  lemma WaitMoves(s: State)
    requires Enabled(s, Thread) && !InWindow(s.pc)
    ensures var s' := Apply(s, Thread);
            && s' == s.(pc := s'.pc, woken := s'.woken, owned := s'.owned) && !InWindow(s'.pc)
            && (s'.pc.Freeing? ==> s.queuedCount == 0) && (s'.pc.Unbound? ==> s.pc.Freeing?)
            && (s'.pc.TestNotFull? || s'.pc.AsleepFull? <==>
                s.pc.AsleepFull? || (s.pc.TestNotFull? && s.queuedCount == BUFFERS))
            && (s'.pc.AsleepFull? ==> s.queuedCount == BUFFERS && !s'.woken)
            && (s'.pc.AsleepEmpty? ==> s.queuedCount != 0 && !s'.woken)
            && (s'.pc.User? ==> s'.owned == s.fill)
  {
  }

  lemma WaitCounts(s: State)
    requires Inv(s) && Enabled(s, Thread) && !InWindow(s.pc)
    ensures var s' := Apply(s, Thread); Counters(s') && NoLostWakeup(s') && Ownership(s')
  {
    WaitMoves(s);
  }

  lemma WaitKeeps(s: State)
    requires Inv(s) && Enabled(s, Thread) && !InWindow(s.pc)
    ensures Inv(Apply(s, Thread))
  {
    var s' := Apply(s, Thread);
    WaitMoves(s);
    WaitCounts(s);
    ElsewhereKeeps(s, s'.pc, s'.woken, s'.owned);
  }

  lemma ThreadKeeps(s: State)
    requires Inv(s) && Enabled(s, Thread)
    ensures Inv(Apply(s, Thread))
  {
    match s.pc
    case Unlocked(count) => UnlockedKeeps(s);
    case WriteAddress(count) => WriteAddressKeeps(s);
    case WriteConfig(count) => WriteConfigKeeps(s);
    case PublishHead => PublishHeadKeeps(s);
    case _ => WaitKeeps(s);
  }

  lemma ConsumeKeeps(s: State)
    requires Inv(s) && Enabled(s, CardConsume)
    ensures Inv(Apply(s, CardConsume))
  {
    var s' := Apply(s, CardConsume);
    SlotsDiffer(s.log.consumed, s.log.published);
    LogConsume(s.log);
    StepRepresents(s.mem, s.log, Consume);
    var e := s.log.written[s.log.consumed];
    assert s.mem.ring[s.mem.fifoTail] == e;
    Untouched(s, s');
    if IsDma(e) {
      ConsumeDma(s, e);
    } else {
      assert s'.card == s.card;
    }
  }

  /** A DMA command the card takes is the next half of the pair of the oldest queued call. */
  lemma NextHalf(s: State, e: Entry, rest: seq<Entry>)
    requires Inv(s) && [e] + rest == Published(s.log)
    ensures s.queuedCount > 0 && !InWindow(s.pc) && Unpublished(s.log) == []
    ensures |s.card.started| == s.handled && s.card.completed == s.handled && !s.card.interrupt
    ensures var t := Wanted(s, s.handled);
            var a, c := Entry(BUFFER_A_ADDRESS, t.address), Entry(BUFFER_A_CONFIG, t.count);
            (e == a && rest == [c]) || (e == c && rest == [] && s.card.address == t.address)
  {
    assert Published(s.log)[0] == e && Published(s.log)[1..] == rest;
  }

  lemma ConsumeDma(s: State, e: Entry)
    requires Inv(s) && s.log.consumed < s.log.published && IsDma(e)
    requires [e] + Published(s.log.Do(Consume)) == Published(s.log)
    requires Unpublished(s.log.Do(Consume)) == Unpublished(s.log)
    ensures var s' := s.Fifo(Consume).(card := Execute(s.card, e));
            Counters(s') && Slots(s') && InOrder(s') && Flight(s')
  {
    var s' := s.Fifo(Consume).(card := Execute(s.card, e));
    Untouched(s, s');
    NextHalf(s, e, Published(s'.log));
    assert Outstanding(s', s'.handled, Wanted(s', s'.handled));
  }

  lemma CompleteKeeps(s: State)
    requires Inv(s) && Enabled(s, CardComplete)
    ensures Inv(Apply(s, CardComplete))
  {
  }

  /** A command pair written and published in one go. */
  lemma PairLog(l: Log, a: Entry, c: Entry)
    requires l.Shape() && Backlog(l) < FIFO_ENTRIES - 2 && Published(l) == [] && Unpublished(l) == []
    requires IsDma(a) && IsDma(c)
    ensures l.Room() && l.Do(Write(a)).Room()
    ensures var l' := l.Do(Write(a)).Do(Write(c)).Do(Publish);
            l'.Shape() && Backlog(l') == Backlog(l) && Published(l') == [a, c] && Unpublished(l') == []
  {
    var l1 := l.Do(Write(a));
    RoomForOne(l);
    LogWrite(l, a);
    RoomForOne(l1);
    LogWrite(l1, c);
    LogPublish(l1.Do(Write(c)));
  }

  lemma PairRepresents(m: Mem, l: Log, a: Entry, c: Entry)
    requires Represents(m, l) && l.Room() && l.Do(Write(a)).Room()
    ensures Represents(m.Do(Write(a)).Do(Write(c)).Do(Publish), l.Do(Write(a)).Do(Write(c)).Do(Publish))
  {
    StepRepresents(m, l, Write(a));
    StepRepresents(m.Do(Write(a)), l.Do(Write(a)), Write(c));
    StepRepresents(m.Do(Write(a)).Do(Write(c)), l.Do(Write(a)).Do(Write(c)), Publish);
  }

  /** The handler's command pair for the call that is now the oldest. */
  lemma HandlerFifo(s: State)
    requires Inv(s) && Enabled(s, Interrupt) && s.queuedCount > 1
    ensures var s', t := Apply(s, Interrupt), Wanted(s, s.handled + 1);
            && FifoExact(s') && Unpublished(s'.log) == []
            && Published(s'.log) == [Entry(BUFFER_A_ADDRESS, t.address), Entry(BUFFER_A_CONFIG, t.count)]
  {
    NextSlot(s.handled);
    var drain := Next(s.drain);
    var a, c := AddressEntry(s.pBase[drain]), ConfigEntry(s.stored[drain]);
    PairLog(s.log, a, c);
    PairRepresents(s.mem, s.log, a, c);
  }

  /** The handler moves on by one call. */
  lemma HandlerCounts(s: State)
    requires Inv(s) && Enabled(s, Interrupt)
    ensures s.queuedCount > 0 && !InWindow(s.pc)
    ensures |s.card.started| == s.handled + 1 && s.card.completed == s.handled + 1
    ensures Published(s.log) == [] && Unpublished(s.log) == []
    ensures var s' := Apply(s, Interrupt);
            && Counters(s') && Slots(s') && NoLostWakeup(s') && Ownership(s')
            && forall k :: 0 <= k < |s.calls| ==> Wanted(s', k) == Wanted(s, k)
  {
    NextSlot(s.handled);
  }

  lemma InterruptKeeps(s: State)
    requires Inv(s) && Enabled(s, Interrupt)
    ensures Inv(Apply(s, Interrupt))
  {
    HandlerCounts(s);
    if s.queuedCount > 1 {
      HandlerFifo(s);
    }
  }

  lemma StepKeeps(s: State, l: Label)
    requires Inv(s) && Enabled(s, l)
    ensures Inv(Apply(s, l))
  {
    match l
    case Bind(pBase) => BindKeeps(s, pBase);
    case UserWrite(e) => UserWriteKeeps(s, e);
    case UserPublish => UserPublishKeeps(s);
    case UserReadTail => UserReadTailKeeps(s);
    case Start(count) =>
      if Accepts(count) {
        if s.queuedCount == 0 { StartEmptyKeeps(s, count); } else { StartQueuedKeeps(s, count); }
      }
    case Unbind =>
    case Thread => ThreadKeeps(s);
    case CardConsume => ConsumeKeeps(s);
    case CardComplete => CompleteKeeps(s);
    case Interrupt => InterruptKeeps(s);
  }

  /** The invariant holds after every run. */
  lemma {:induction false} RunKeeps(s: State, labels: seq<Label>)
    requires Inv(s) && Legal(s, labels)
    ensures Inv(Exec(s, labels))
    decreases |labels|
  {
    if labels != [] {
      StepKeeps(s, labels[0]);
      RunKeeps(Apply(s, labels[0]), labels[1..]);
    }
  }

  lemma InitialInv(s: State)
    requires Initial(s)
    ensures Inv(s)
  {
    DmaParts(s.log);
  }
}
