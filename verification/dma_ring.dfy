/** The DMA ring of Kyouko3_GrpahicsDriver/mymod.c as a transition system: one user thread inside
    start_dma, bind_dma or late_unbind_dma, the completion interrupt, and the card. */
module DmaRing {
  import opened CommandFifo

  const BUFFERS: nat := 8
  const BUFFER_SIZE: nat := 126976
  const BUFFER_A_ADDRESS: nat := 0x2000
  const BUFFER_A_CONFIG: nat := 0x2008
  const TWO_31: int := 0x8000_0000
  const TWO_32: int := 0x1_0000_0000

  /** Conversion to `unsigned int`, as in the arguments of FIFO_WRITE. */
  function U32(x: int): nat {
    x % TWO_32
  }

  /** It keeps the 32 bits of any value: what fits is unchanged, and the rest differs from it by a
      multiple of 2^32. */
  lemma U32Word(x: int)
    ensures U32(x) < TWO_32 && (x - U32(x)) % TWO_32 == 0
    ensures 0 <= x < TWO_32 ==> U32(x) == x
  {
  }

  /** The two checks at the head of start_dma; the second compares as unsigned, so it catches
      negative counts too. */
  predicate Accepts(count: int) {
    count != 0 && !(U32(count) > BUFFER_SIZE)
  }

  lemma AcceptsRange(count: int)
    requires -TWO_31 <= count < TWO_31
    ensures Accepts(count) <==> 1 <= count <= 126976
  {
  }

  /** Where the user thread is. */
  datatype Pc =
    | Unbound                      // no ring
    | User                         // outside the driver, ring bound
    | Unlocked(count: int)         // start_dma, ring was empty: lock dropped, fill still to move
    | WriteAddress(count: int)     //   about to write BufferAAddress
    | WriteConfig(count: int)      //   about to write BufferAConfig
    | PublishHead                  //   about to publish the head
    | TestNotFull                  // start_dma, ring became full: about to test the wait condition
    | AsleepFull                   //   asleep on dma_not_full
    | Returning                    // about to return the next buffer
    | TestEmpty                    // late_unbind_dma: about to test the wait condition
    | AsleepEmpty                  //   asleep on dma_empty
    | Freeing                      //   past the wait, freeing the buffers

  /** One accepted start_dma call: the buffer the user filled and its byte count. */
  datatype Call = Call(buffer: nat, count: int)

  datatype Transfer = Transfer(address: nat, count: nat)

  /** The card's DMA unit: the last BufferAAddress, the transfers started and completed since the ring
      was bound, and bit 0x02 of the interrupt status. */
  datatype Card = Card(address: nat, started: seq<Transfer>, completed: nat, interrupt: bool)

  datatype State = State(
    // struct kyouko3
    fill: nat, drain: nat, queuedCount: int, stored: seq<int>, pBase: seq<nat>,
    // the FIFO: memory, and the queue it should stand for
    mem: Mem, log: Log,
    card: Card,
    // the user thread, and whether a wakeup reached it
    pc: Pc, woken: bool,
    // history since bind: accepted calls, interrupts handled, and the buffer last handed to the user
    calls: seq<Call>, handled: nat, owned: nat)
  {
    predicate Shape() {
      |stored| == BUFFERS && |pBase| == BUFFERS && fill < BUFFERS && drain < BUFFERS && mem.Shape()
    }

    function Fifo(step: Step): (s: State)
      requires Shape()
      ensures s.Shape()
    {
      this.(mem := mem.Do(step), log := log.Do(step))
    }
  }

  function Next(i: nat): nat {
    (i + 1) % BUFFERS
  }

  predicate IsDma(e: Entry) {
    e.command == BUFFER_A_ADDRESS || e.command == BUFFER_A_CONFIG
  }

  /** The DMA commands among some entries. */
  function Dma(es: seq<Entry>): seq<Entry> {
    if es == [] then []
    else Dma(es[..|es| - 1]) + if IsDma(es[|es| - 1]) then [es[|es| - 1]] else []
  }

  function Unconsumed(l: Log): seq<Entry>
    requires l.Shape()
  {
    l.written[l.consumed..]
  }

  /** How many of the user's own entries the card has not consumed. */
  function Backlog(l: Log): int
    requires l.Shape()
  {
    |Unconsumed(l)| - |Dma(Unconsumed(l))|
  }

  function AddressEntry(address: nat): Entry { Entry(BUFFER_A_ADDRESS, U32(address)) }

  function ConfigEntry(count: int): Entry { Entry(BUFFER_A_CONFIG, U32(count)) }

  // ---------- steps ----------

  datatype Label =
    | Bind(pBase: seq<nat>)    // bind_dma, successful, with these buffers
    | UserWrite(e: Entry)      // an entry of the user's own, through FIFO_WRITE
    | UserPublish              // the head of fifo_flush
    | UserReadTail             // one round of its loop
    | Start(count: int)        // start_dma, up to the end of its locked section
    | Unbind                   // late_unbind_dma is called
    | Thread                   // the user thread runs to its next interruptible point
    | CardConsume              // the card takes a FIFO entry
    | CardComplete             // the card completes a transfer and raises its interrupt
    | Interrupt                // dma_intr

  predicate Enabled(s: State, l: Label) {
    s.Shape() && s.log.Shape() &&
    match l
    case Bind(pBase) => s.pc.Unbound? && |pBase| == BUFFERS
    // The user leaves the DMA commands to start_dma and flushes often enough.
    case UserWrite(e) => (s.pc.User? || s.pc.Unbound?) && !IsDma(e) && Backlog(s.log) + 2 < FIFO_ENTRIES - 1
    case UserPublish => s.pc.User? || s.pc.Unbound?
    case UserReadTail => s.pc.User? || s.pc.Unbound?
    case Start(count) => s.pc.User? && -TWO_31 <= count < TWO_31
    case Unbind => s.pc.User?
    case Thread =>
      !s.pc.User? && !s.pc.Unbound? && (s.pc.AsleepFull? || s.pc.AsleepEmpty? ==> s.woken)
    case CardConsume => s.mem.fifoTail != s.mem.fifoHead
    case CardComplete => s.card.completed < |s.card.started|
    case Interrupt => s.card.interrupt
  }

  /** start_dma from its checks to the point where it drops the lock. */
  function StartLocked(s: State, count: int): (s': State)
    requires s.Shape()
    ensures s'.Shape()
  {
    if !Accepts(count) then s
    else
      var s1 := s.(queuedCount := s.queuedCount + 1, calls := s.calls + [Call(s.owned, count)]);
      if s.fill == s.drain then s1.(pc := Unlocked(count))
      else
        var s2 := s1.(stored := s.stored[s.fill := count], fill := Next(s.fill));
        s2.(pc := if s2.fill == s2.drain then TestNotFull else Returning)
  }

  function ThreadStep(s: State): (s': State)
    requires s.Shape()
    ensures s'.Shape()
  {
    match s.pc
    case Unlocked(count) => s.(fill := Next(s.fill), pc := WriteAddress(count))
    case WriteAddress(count) => s.Fifo(Write(AddressEntry(s.pBase[s.drain]))).(pc := WriteConfig(count))
    case WriteConfig(count) => s.Fifo(Write(ConfigEntry(count))).(pc := PublishHead)
    case PublishHead => s.Fifo(Publish).(pc := Returning)
    case TestNotFull => if s.queuedCount != BUFFERS then s.(pc := Returning) else s.(pc := AsleepFull, woken := false)
    case AsleepFull => s.(pc := TestNotFull)
    case Returning => s.(pc := User, owned := s.fill)
    case TestEmpty => if s.queuedCount == 0 then s.(pc := Freeing) else s.(pc := AsleepEmpty, woken := false)
    case AsleepEmpty => s.(pc := TestEmpty)
    case Freeing => s.(pc := Unbound)
    case _ => s
  }

  /** What the card does with an entry. */
  function Execute(c: Card, e: Entry): Card {
    if e.command == BUFFER_A_ADDRESS then c.(address := e.value)
    else if e.command == BUFFER_A_CONFIG then c.(started := c.started + [Transfer(c.address, e.value)])
    else c
  }

  /** dma_intr with bit 0x02 set. */
  function Intr(s: State): (s': State)
    requires s.Shape()
    ensures s'.Shape()
  {
    var queued, drain := s.queuedCount - 1, Next(s.drain);
    var wakes := (queued + 1 == BUFFERS && s.pc.AsleepFull?) || (queued == 0 && s.pc.AsleepEmpty?);
    var s1 := s.(queuedCount := queued, drain := drain, woken := s.woken || wakes,
                 card := s.card.(interrupt := false), handled := s.handled + 1);
    if queued != 0 then
      s1.Fifo(Write(AddressEntry(s.pBase[drain]))).Fifo(Write(ConfigEntry(s.stored[drain]))).Fifo(Publish)
    else s1
  }

  function Apply(s: State, l: Label): (s': State)
    requires Enabled(s, l)
    ensures s'.Shape()
  {
    match l
    case Bind(pBase) =>
      s.(fill := 0, drain := 0, queuedCount := 0, pBase := pBase, pc := User,
         card := s.card.(started := [], completed := 0), calls := [], handled := 0, owned := 0)
    case UserWrite(e) => s.Fifo(Write(e))
    case UserPublish => s.Fifo(Publish)
    case UserReadTail => s.Fifo(ReadTail)
    case Start(count) => StartLocked(s, count)
    case Unbind => s.(pc := TestEmpty)
    case Thread => ThreadStep(s)
    case CardConsume => s.Fifo(Consume).(card := Execute(s.card, s.mem.ring[s.mem.fifoTail]))
    case CardComplete => s.(card := s.card.(completed := s.card.completed + 1, interrupt := true))
    case Interrupt => Intr(s)
  }

  // ---------- runs ----------

  /** The driver after kyouko3_open. */
  ghost predicate Initial(s: State) {
    && s.Shape() && Represents(s.mem, s.log) && Dma(Unconsumed(s.log)) == [] && Backlog(s.log) < FIFO_ENTRIES - 2
    && s.pc.Unbound? && s.fill == s.drain == s.handled == 0 && s.queuedCount == 0 && s.calls == []
    && s.card.started == [] && s.card.completed == 0 && !s.card.interrupt
  }

  /** Each label is enabled where it is taken. */
  predicate Legal(s: State, labels: seq<Label>)
    decreases |labels|
  {
    labels == [] || (Enabled(s, labels[0]) && Legal(Apply(s, labels[0]), labels[1..]))
  }

  function Exec(s: State, labels: seq<Label>): State
    requires Legal(s, labels)
    decreases |labels|
  {
    if labels == [] then s else Exec(Apply(s, labels[0]), labels[1..])
  }

  lemma {:induction false} ExecConcat(s: State, a: seq<Label>, b: seq<Label>)
    requires Legal(s, a) && Legal(Exec(s, a), b)
    ensures Legal(s, a + b) && Exec(s, a + b) == Exec(Exec(s, a), b)
    decreases |a|
  {
    if a == [] {
      assert a + b == b;
    } else {
      assert (a + b)[1..] == a[1..] + b;
      ExecConcat(Apply(s, a[0]), a[1..], b);
    }
  }

  /** Some run leads from one state to the other. */
  ghost predicate Leads(s: State, t: State) {
    exists labels :: Legal(s, labels) && Exec(s, labels) == t
  }

  lemma LeadsNowhere(s: State)
    ensures Leads(s, s)
  {
    assert Legal(s, []) && Exec(s, []) == s;
  }

  lemma LeadsOn(s: State, t: State, l: Label)
    requires Leads(s, t) && Enabled(t, l)
    ensures Leads(s, Apply(t, l))
  {
    var labels :| Legal(s, labels) && Exec(s, labels) == t;
    assert [l][1..] == [];
    assert Legal(Apply(t, l), []) && Exec(Apply(t, l), []) == Apply(t, l);
    ExecConcat(s, labels, [l]);
    assert Legal(s, labels + [l]) && Exec(s, labels + [l]) == Apply(t, l);
  }
}
