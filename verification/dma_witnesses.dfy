/** Runs of the DMA ring that lead to the states its limits are about. */
module DmaWitnesses {
  import opened CommandFifo
  import opened DmaRing
  import opened DmaSafety
  import opened DmaTheorems
  import opened DmaFlush

  /** The driver just opened, with a blank FIFO. */
  function Opened(): State {
    State(0, 0, 0, seq(BUFFERS, _ => 0), seq(BUFFERS, _ => 0),
          Mem(seq(FIFO_ENTRIES, _ => Entry(0, 0)), 0, 0, 0, 0, []), Log([], 0, 0, 0),
          Card(0, [], 0, false), Unbound, false, [], 0, 0)
  }

  lemma ReachStep(e: State, l: Label) returns (e': State)
    requires Reachable(e) && Enabled(e, l)
    ensures e' == Apply(e, l) && Reachable(e')
  {
    e' := Apply(e, l);
    var s :| Initial(s) && Leads(s, e);
    LeadsOn(s, e, l);
  }

  /** Between calls, with nothing queued and every entry consumed. */
  ghost predicate Rest(e: State) {
    Reachable(e) && e.pc.User? && e.queuedCount == 0 && e.log.consumed == e.log.published == |e.log.written|
  }

  lemma BoundRing() returns (e: State)
    ensures Rest(e) && e.log == Log([], 0, 0, 0) && e.calls == [] && !e.card.interrupt
  {
    var s := Opened();
    assert Initial(s);
    LeadsNowhere(s);
    e := ReachStep(s, Bind(s.pBase));
  }

  // ---------- calls ----------

  lemma Onward(s: State, t: State, l: Label) returns (t': State)
    requires Leads(s, t) && Enabled(t, l)
    ensures t' == Apply(t, l) && Leads(s, t')
  {
    t' := Apply(t, l);
    LeadsOn(s, t, l);
  }

  /** The state after a call that found the ring empty, with nothing happening in between. */
  function AfterDirect(t: State, count: int): State
    requires t.Shape()
  {
    var a, c := AddressEntry(t.pBase[t.drain]), ConfigEntry(count);
    t.(fill := Next(t.fill), queuedCount := t.queuedCount + 1, calls := t.calls + [Call(t.owned, count)],
       mem := t.mem.Do(Write(a)).Do(Write(c)).Do(Publish), log := t.log.Do(Write(a)).Do(Write(c)).Do(Publish),
       owned := Next(t.fill))
  }

  /** Its first half, up to the address. */
  function HalfDirect(t: State, count: int): State
    requires t.Shape()
  {
    var a := AddressEntry(t.pBase[t.drain]);
    t.(fill := Next(t.fill), queuedCount := t.queuedCount + 1, calls := t.calls + [Call(t.owned, count)],
       mem := t.mem.Do(Write(a)), log := t.log.Do(Write(a)), pc := WriteConfig(count))
  }

  lemma FirstHalf(s: State, t: State, count: int)
    requires Leads(s, t) && t.Shape() && t.log.Shape() && t.pc.User? && t.fill == t.drain && 1 <= count <= BUFFER_SIZE
    ensures Leads(s, HalfDirect(t, count))
  {
    AcceptsRange(count);
    var t1 := Onward(s, t, Start(count));
    var t2 := Onward(s, t1, Thread);
    var t3 := Onward(s, t2, Thread);
  }

  lemma SecondHalf(s: State, h: State)
    requires Leads(s, h) && h.Shape() && h.log.Shape() && h.pc.WriteConfig?
    ensures var c := ConfigEntry(h.pc.count);
            Leads(s, h.(mem := h.mem.Do(Write(c)).Do(Publish), log := h.log.Do(Write(c)).Do(Publish),
                        pc := User, owned := h.fill))
  {
    var h1 := Onward(s, h, Thread);
    var h2 := Onward(s, h1, Thread);
    var h3 := Onward(s, h2, Thread);
  }

  lemma DirectRun(s: State, t: State, count: int)
    requires Leads(s, t) && t.Shape() && t.log.Shape() && t.pc.User? && t.fill == t.drain && 1 <= count <= BUFFER_SIZE
    ensures Leads(s, AfterDirect(t, count))
  {
    FirstHalf(s, t, count);
    SecondHalf(s, HalfDirect(t, count));
  }

  lemma DirectCall(e: State, count: int) returns (e': State)
    requires Reachable(e) && e.pc.User? && e.queuedCount == 0 && 1 <= count <= BUFFER_SIZE
    ensures Reachable(e') && e'.pc.User? && e'.queuedCount == 1 && e'.card == e.card
    ensures |e'.calls| == |e.calls| + 1 && e'.calls[|e.calls|].count == count
    ensures |e'.log.written| == |e.log.written| + 2 == e'.log.published
    ensures e'.log.consumed == e.log.consumed && e'.log.tailRead == e.log.tailRead
  {
    ReachableInv(e);
    MeetsWhenEmpty(e);
    e' := AfterDirect(e, count);
    var s :| Initial(s) && Leads(s, e);
    DirectRun(s, e, count);
  }

  /** A call that finds the ring neither empty nor one short of full. */
  lemma QueuedCall(e: State, count: int) returns (e': State)
    requires Reachable(e) && e.pc.User? && 0 < e.queuedCount < BUFFERS - 1 && 1 <= count <= BUFFER_SIZE
    ensures Reachable(e') && e'.pc.User? && e'.queuedCount == e.queuedCount + 1
    ensures e'.log == e.log && e'.card == e.card
  {
    ReachableInv(e);
    AcceptsRange(count);
    MeetsWhenEmpty(e);
    MeetsWhenFull(e);
    var e1 := ReachStep(e, Start(count));
    ReachableInv(e1);
    e' := ReachStep(e1, Thread);
  }

  lemma {:induction false} SevenQueued(e: State, count: int) returns (e': State)
    requires Reachable(e) && e.pc.User? && 0 < e.queuedCount < BUFFERS && 1 <= count <= BUFFER_SIZE
    ensures Reachable(e') && e'.pc.User? && e'.queuedCount == BUFFERS - 1
    ensures e'.log == e.log && e'.card == e.card
    decreases BUFFERS - e.queuedCount
  {
    if e.queuedCount == BUFFERS - 1 {
      e' := e;
    } else {
      e' := QueuedCall(e, count);
      e' := SevenQueued(e', count);
    }
  }

  /** A producer does come to sleep on a full ring: one call goes out directly, seven queue behind it
      before the card does anything. */
  lemma SleeperReachable(count: int) returns (e: State)
    requires 1 <= count <= BUFFER_SIZE
    ensures Reachable(e) && e.pc.AsleepFull? && !e.woken && e.queuedCount == BUFFERS
  {
    e := BoundRing();
    e := DirectCall(e, count);
    e := SevenQueued(e, count);
    ReachableInv(e);
    AcceptsRange(count);
    MeetsWhenEmpty(e);
    MeetsWhenFull(e);
    e := ReachStep(e, Start(count));
    ReachableInv(e);
    e := ReachStep(e, Thread);
  }

  // ---------- a stale tail ----------

  lemma EntryTaken(e: State) returns (e': State)
    requires Reachable(e) && e.log.Shape() && e.log.consumed < e.log.published
    ensures Reachable(e') && e'.log == e.log.(consumed := e.log.consumed + 1)
    ensures e'.pc == e.pc && e'.queuedCount == e.queuedCount && e'.calls == e.calls
    ensures e'.card.interrupt == e.card.interrupt
  {
    ReachableInv(e);
    SlotsDiffer(e.log.consumed, e.log.published);
    e' := ReachStep(e, CardConsume);
  }

  lemma PairTaken(e: State) returns (e': State)
    requires Reachable(e) && e.log.Shape() && e.log.consumed + 2 == |e.log.written| == e.log.published
    ensures Reachable(e') && e'.log == e.log.(consumed := |e.log.written|)
    ensures e'.pc == e.pc && e'.queuedCount == e.queuedCount && e'.calls == e.calls
    ensures e'.card.interrupt == e.card.interrupt
  {
    e' := EntryTaken(e);
    e' := EntryTaken(e');
  }

  lemma Transferred(e: State) returns (e': State)
    requires Reachable(e) && e.pc.User? && e.queuedCount == 1 && !e.card.interrupt
    requires e.log.consumed == |e.log.written| == e.log.published
    ensures Rest(e') && e'.log == e.log
  {
    ReachableInv(e);
    assert Published(e.log) == [];
    e' := ReachStep(e, CardComplete);
    e' := ReachStep(e', Interrupt);
  }

  /** Calls without a flush, each transferred and acknowledged before the next. */
  lemma {:induction false} Cycles(e: State, n: nat) returns (e': State)
    requires Rest(e)
    ensures Rest(e') && |e'.log.written| == |e.log.written| + 2 * n && e'.log.tailRead == e.log.tailRead
    decreases n
  {
    if n == 0 {
      e' := e;
    } else {
      ReachableInv(e);
      e' := DirectCall(e, 1);
      ReachableInv(e');
      e' := PairTaken(e');
      e' := Transferred(e');
      e' := Cycles(e', n - 1);
    }
  }

  lemma {:induction false} UserEntries(e: State, n: nat) returns (e': State)
    requires Reachable(e) && e.pc.User? && e.log.Shape() && Backlog(e.log) + n < FIFO_ENTRIES - 2
    ensures Reachable(e') && e'.pc.User? && e'.queuedCount == e.queuedCount
    ensures e'.log == e.log.(written := e'.log.written) && |e'.log.written| == |e.log.written| + n
    ensures e'.log.Shape() && Backlog(e'.log) == Backlog(e.log) + n
    decreases n
  {
    if n == 0 {
      e' := e;
    } else {
      e' := UserEntry(e);
      e' := UserEntries(e', n - 1);
    }
  }

  lemma UserEntry(e: State) returns (e': State)
    requires Reachable(e) && e.pc.User? && e.log.Shape() && Backlog(e.log) < FIFO_ENTRIES - 3
    ensures Reachable(e') && e'.pc.User? && e'.queuedCount == e.queuedCount
    ensures e'.log == e.log.(written := e'.log.written) && |e'.log.written| == |e.log.written| + 1
    ensures e'.log.Shape() && Backlog(e'.log) == Backlog(e.log) + 1
  {
    ReachableInv(e);
    LogWrite(e.log, Entry(0, 0));
    e' := ReachStep(e, UserWrite(Entry(0, 0)));
  }

  lemma RestBacklog(e: State)
    requires Rest(e)
    ensures e.log.Shape() && Backlog(e.log) == 0
  {
    ReachableInv(e);
    assert Unconsumed(e.log) == [];
  }

  lemma StaleTest(e: State)
    requires Inv(e) && |e.log.written| == FIFO_ENTRIES && e.log.tailRead == 0 && e.log.consumed + 2 == |e.log.written|
    ensures e.mem.tailCache == e.mem.head && !e.log.Recent() && e.mem.received != e.log.written
  {
  }

  /** 511 calls without a flush and two entries of the user's own: the flush that follows finds its
      tail cache, never refreshed, equal to the head, and returns with the two entries unconsumed. */
  lemma StaleFlush() returns (e: State)
    ensures Reachable(e) && e.pc.User? && e.log.published == |e.log.written|
    ensures e.mem.tailCache == e.mem.head && e.log.consumed + 2 == |e.log.written|
    ensures !e.log.Recent() && e.mem.received != e.log.written
  {
    var e1 := BoundRing();
    var e2 := Cycles(e1, 511);
    RestBacklog(e2);
    var e3 := UserEntries(e2, 2);
    ReachableInv(e3);
    e := ReachStep(e3, UserPublish);
    ReachableInv(e);
    StaleTest(e);
  }

  lemma DrainedBacklog(e: State)
    requires Reachable(e) && e.log.Shape() && e.log.consumed == |e.log.written|
    ensures Backlog(e.log) == 0
  {
    assert Unconsumed(e.log) == [];
  }

  /** One call in transfer, and nothing in the FIFO. */
  lemma InTransfer(count: int) returns (e: State)
    requires 1 <= count <= BUFFER_SIZE
    ensures Reachable(e) && Inv(e) && e.pc.User? && e.queuedCount == 1 && !e.card.interrupt
    ensures e.log.consumed == |e.log.written| && |e.calls| == 1 && e.calls[0].count == count
  {
    e := BoundRing();
    e := DirectCall(e, count);
    ReachableInv(e);
    e := PairTaken(e);
    ReachableInv(e);
  }

  lemma SevenAndMany() returns (s: State)
    ensures Reachable(s) && s.pc.User? && s.queuedCount == BUFFERS - 1
    ensures s.log.tailRead == s.log.consumed && Left(s.log) == FIFO_ENTRIES - 12
  {
    var e := InTransfer(1);
    e := SevenQueued(e, 1);
    DrainedBacklog(e);
    e := UserEntries(e, FIFO_ENTRIES - 12);
    s := TailSeen(e);
  }

  lemma TailSeen(e: State) returns (e': State)
    requires Reachable(e) && e.pc.User?
    ensures Reachable(e') && e'.pc.User? && e'.queuedCount == e.queuedCount
    ensures e'.log == e.log.(tailRead := e.log.consumed)
  {
    ReachableInv(e);
    e' := ReachStep(e, UserReadTail);
  }

  lemma TooMuch(s: State)
    requires Left(s.log) + Due(s) >= FIFO_ENTRIES
    ensures !FlushSafe(s)
  {
  }

  /** Nor does it take a stale tail: with seven calls queued, 1012 entries of the user's own, and the tail
      read just before the call, the handler's six pairs make 1024 in some course of the flush. */
  lemma FreshTailFlush() returns (s: State, tests: seq<State>)
    ensures Reachable(s) && s.pc.User? && s.queuedCount == BUFFERS - 1
    ensures s.log.tailRead == s.log.consumed && Left(s.log) == FIFO_ENTRIES - 12 && s.log.Recent()
    ensures FlushRun(s, tests) && tests[|tests| - 1].mem.received != tests[|tests| - 1].log.written
  {
    s := SevenAndMany();
    ReachableInv(s);
    TooMuch(s);
    tests := UnsafeFlush(s);
  }

  // ---------- a teardown asleep ----------

  lemma FallsAsleep(e: State) returns (e': State)
    requires Reachable(e) && e.Shape() && e.log.Shape() && e.pc.User? && e.queuedCount > 0
    ensures Reachable(e') && e' == e.(pc := AsleepEmpty, woken := false)
  {
    e' := ReachStep(e, DmaRing.Unbind);
    e' := ReachStep(e', Thread);
  }

  lemma UnderWay(e: State)
    requires Inv(e) && e.pc.User? && e.queuedCount == 1 && !e.card.interrupt && e.log.consumed == |e.log.written|
    ensures |e.calls| == e.handled + 1 == |e.card.started| == e.card.completed + 1
    ensures e.card.started[e.handled] == Transfer(U32(e.pBase[e.drain]), e.calls[e.handled].count)
  {
    assert Published(e.log) == [];
    WantedCall(e, e.handled);
  }

  /** A teardown does come to sleep while a transfer is under way, out of the buffer its call filled. */
  lemma TeardownSleeper(count: int) returns (e: State)
    requires 1 <= count <= BUFFER_SIZE
    ensures Reachable(e) && e.Shape() && e.pc.AsleepEmpty? && !e.woken
    ensures |e.card.started| == e.card.completed + 1
    ensures e.card.started[e.card.completed] == Transfer(U32(e.pBase[e.drain]), count)
  {
    e := InTransfer(count);
    UnderWay(e);
    e := FallsAsleep(e);
  }

  // ---------- a backlog one entry too long ----------

  /** The longest backlog of the user's own entries the model allows does occur. */
  lemma LongestBacklog() returns (e: State)
    ensures Reachable(e) && e.pc.User? && e.queuedCount == 0 && e.log.Shape() && Backlog(e.log) == FIFO_ENTRIES - 3
  {
    e := BoundRing();
    RestBacklog(e);
    e := UserEntries(e, FIFO_ENTRIES - 3);
    ReachableInv(e);
  }

  /** The head once the ring is one entry short of full, and two entries later. */
  lemma HeadComesRound(m: Mem, c: nat, x: Entry, a: Entry, b: Entry)
    requires m.Shape() && m.head == (c + FIFO_ENTRIES - 3) % FIFO_ENTRIES
    ensures m.Write(x).Write(a).Write(b).head == c % FIFO_ENTRIES
  {
    WrapStep(c + FIFO_ENTRIES - 3);
    WrapStep(c + FIFO_ENTRIES - 2);
    HeadMeetsTail(m.Write(x).Write(a), c, b);
  }

  lemma HeadMeetsTail(m: Mem, c: nat, x: Entry)
    requires m.Shape() && m.head == (c + FIFO_ENTRIES - 1) % FIFO_ENTRIES
    ensures m.Write(x).head == c % FIFO_ENTRIES
  {
    WrapStep(c + FIFO_ENTRIES - 1);
    SlotsAgree(c, c + FIFO_ENTRIES);
  }

  lemma BacklogHead(e: State)
    requires Inv(e) && e.pc.User? && Backlog(e.log) == FIFO_ENTRIES - 3
    ensures e.mem.head == (e.log.consumed + FIFO_ENTRIES - 3 + |Published(e.log)|) % FIFO_ENTRIES
    ensures e.mem.fifoTail == e.log.consumed % FIFO_ENTRIES
  {
    DmaParts(e.log);
    assert |Unconsumed(e.log)| == FIFO_ENTRIES - 3 + |Published(e.log)|;
  }

  /** A state that has slept away its last chance: the FIFO looks empty to the card, calls are queued,
      and nothing more can happen. */
  ghost predicate Dead(t: State) {
    && t.pc.AsleepEmpty? && t.queuedCount > 0 && t.mem.fifoHead == t.mem.fifoTail
    && forall l :: !Enabled(t, l)
  }

  lemma NothingEnabled(t: State)
    requires t.pc.AsleepEmpty? && !t.woken && t.mem.fifoHead == t.mem.fifoTail
    requires t.card.completed == |t.card.started| && !t.card.interrupt
    ensures forall l :: !Enabled(t, l)
  {
  }

  lemma Stuck(s: State, t: State) returns (t': State)
    requires Leads(s, t) && t.Shape() && t.log.Shape() && t.pc.User? && t.queuedCount > 0
    requires t.mem.fifoHead == t.mem.fifoTail && t.card.completed == |t.card.started| && !t.card.interrupt
    ensures Leads(s, t') && Dead(t') && t'.queuedCount == t.queuedCount
  {
    t' := Onward(s, t, DmaRing.Unbind);
    t' := Onward(s, t', Thread);
    NothingEnabled(t');
  }

  /** On an empty ring the next call's own pair brings the head round to the card's tail. */
  lemma MoreOnEmpty(e: State, x: Entry, count: int) returns (t: State)
    requires Inv(e) && e.pc.User? && e.queuedCount == 0 && Backlog(e.log) == FIFO_ENTRIES - 3
    requires 1 <= count <= BUFFER_SIZE
    ensures Leads(e.Fifo(Write(x)), t) && Dead(t) && t.queuedCount == 1
  {
    MeetsWhenEmpty(e);
    BacklogHead(e);
    var s := e.Fifo(Write(x));
    LeadsNowhere(s);
    DirectRun(s, s, count);
    HeadComesRound(e.mem, e.log.consumed, x, AddressEntry(e.pBase[e.drain]), ConfigEntry(count));
    t := Stuck(s, AfterDirect(s, count));
  }

  /** With a pair still in the FIFO the entry itself does, once published. */
  lemma MoreOnPair(e: State, x: Entry) returns (t: State)
    requires Inv(e) && e.pc.User? && e.queuedCount > 0 && Backlog(e.log) == FIFO_ENTRIES - 3
    requires |Published(e.log)| == 2
    ensures Leads(e.Fifo(Write(x)), t) && Dead(t)
  {
    BacklogHead(e);
    var s := e.Fifo(Write(x));
    HeadMeetsTail(e.mem, e.log.consumed, x);
    LeadsNowhere(s);
    var p := Onward(s, s, UserPublish);
    t := Stuck(s, p);
  }

  /** With the oldest call in transfer, the handler's pair for the next one does. */
  lemma MoreInTransfer(s: State, e: State, x: Entry, count: int) returns (t: State)
    requires Inv(e) && e.pc.User? && e.queuedCount > 0 && Backlog(e.log) == FIFO_ENTRIES - 3
    requires Published(e.log) == [] && Leads(s, e.Fifo(Write(x))) && 1 <= count <= BUFFER_SIZE
    ensures Leads(s, t) && Dead(t)
  {
    BacklogHead(e);
    MeetsWhenEmpty(e);
    MeetsWhenFull(e);
    var u := e.Fifo(Write(x));
    if u.queuedCount == 1 {
      u := NextQueued(s, u, count);
    }
    if !u.card.interrupt {
      u := Onward(s, u, CardComplete);
    }
    t := HandlerOverruns(s, u, e, x);
  }

  lemma NextQueued(s: State, u: State, count: int) returns (u': State)
    requires Leads(s, u) && u.Shape() && u.log.Shape() && u.pc.User? && u.queuedCount == 1
    requires u.fill != u.drain && Next(u.fill) != u.drain && 1 <= count <= BUFFER_SIZE
    ensures Leads(s, u') && u'.Shape() && u'.pc.User? && u'.queuedCount == 2
    ensures u'.mem == u.mem && u'.log == u.log && u'.card == u.card
  {
    AcceptsRange(count);
    u' := Onward(s, u, Start(count));
    u' := Onward(s, u', Thread);
  }

  lemma HandlerOverruns(s: State, u: State, e: State, x: Entry) returns (t: State)
    requires Leads(s, u) && u.Shape() && u.log.Shape() && u.pc.User? && u.queuedCount > 1
    requires u.card.interrupt && u.card.completed == |u.card.started|
    requires e.Shape() && u.mem == e.mem.Write(x)
    requires e.mem.head == (e.log.consumed + FIFO_ENTRIES - 3) % FIFO_ENTRIES
    requires e.mem.fifoTail == e.log.consumed % FIFO_ENTRIES
    ensures Leads(s, t) && Dead(t)
  {
    var drain := Next(u.drain);
    HeadComesRound(e.mem, e.log.consumed, x, AddressEntry(u.pBase[drain]), ConfigEntry(u.stored[drain]));
    var v := Onward(s, u, Interrupt);
    t := Stuck(s, v);
  }

  /** With only the config left of a pair, the card takes it first. */
  lemma MoreOnConfig(e: State, x: Entry, count: int) returns (t: State)
    requires Reachable(e) && Inv(e) && e.pc.User? && e.queuedCount > 0 && Backlog(e.log) == FIFO_ENTRIES - 3
    requires |Published(e.log)| == 1 && 1 <= count <= BUFFER_SIZE
    ensures Leads(e.Fifo(Write(x)), t) && Dead(t)
  {
    var s := e.Fifo(Write(x));
    PairsAdjacent(e);
    SlotsDiffer(e.log.consumed, e.log.published);
    ConfigTaken(e);
    WriteThenConsume(e, x);
    LeadsNowhere(s);
    var s1 := Onward(s, s, CardConsume);
    t := MoreInTransfer(s, Apply(e, CardConsume), x, count);
  }

  lemma ConfigTaken(e: State)
    requires Inv(e) && Enabled(e, CardConsume) && e.log.consumed < e.log.published && |Published(e.log)| == 1
    requires IsDma(e.log.written[e.log.consumed])
    ensures var e' := Apply(e, CardConsume);
            && Inv(e') && e'.pc == e.pc && e'.queuedCount == e.queuedCount
            && Published(e'.log) == [] && Backlog(e'.log) == Backlog(e.log)
  {
    StepKeeps(e, CardConsume);
    LogConsume(e.log);
    DmaParts(e.log);
    DmaParts(e.log.Do(Consume));
  }

  lemma WriteThenConsume(e: State, x: Entry)
    requires Inv(e) && Enabled(e, CardConsume) && e.log.consumed < e.log.published
    ensures Enabled(e.Fifo(Write(x)), CardConsume)
    ensures Apply(e.Fifo(Write(x)), CardConsume) == Apply(e, CardConsume).Fifo(Write(x))
  {
    SlotsDiffer(e.log.consumed, |e.log.written|);
  }

  /** From every state with that backlog, one more entry of the user's own, which the driver does not
      refuse, can lead to the end: head and tail meet with the FIFO full, the card sees it empty, and
      the teardown that follows sleeps for ever. */
  lemma OneEntryMore(e: State, x: Entry, count: int) returns (t: State)
    requires Reachable(e) && e.pc.User? && e.log.Shape() && Backlog(e.log) == FIFO_ENTRIES - 3
    requires 1 <= count <= BUFFER_SIZE
    ensures e.Shape() && Leads(e.Fifo(Write(x)), t) && Dead(t)
    ensures e.queuedCount == 0 ==> t.queuedCount == 1
  {
    ReachableInv(e);
    if e.queuedCount == 0 {
      t := MoreOnEmpty(e, x, count);
    } else if |Published(e.log)| == 2 {
      t := MoreOnPair(e, x);
    } else if |Published(e.log)| == 1 {
      t := MoreOnConfig(e, x, count);
    } else {
      LeadsNowhere(e.Fifo(Write(x)));
      t := MoreInTransfer(e.Fifo(Write(x)), e, x, count);
    }
  }
}
