/** The command FIFO of the card: a ring of 1024 entries that the driver fills through FIFO_WRITE and
    the card empties up to the published head. */
module CommandFifo {

  const FIFO_ENTRIES: nat := 1024

  datatype Entry = Entry(command: nat, value: nat)

  datatype Step = Write(e: Entry) | Publish | Consume | ReadTail

  // ---------- what is in memory ----------

  /** The driver's ring, head and tail cache, the registers FifoHead and FifoTail, and what the card
      has read out of the ring so far. */
  datatype Mem = Mem(ring: seq<Entry>, head: nat, tailCache: nat, fifoHead: nat, fifoTail: nat, received: seq<Entry>)
  {
    predicate Shape() {
      && |ring| == FIFO_ENTRIES && head < FIFO_ENTRIES && tailCache < FIFO_ENTRIES
      && fifoHead < FIFO_ENTRIES && fifoTail < FIFO_ENTRIES
    }

    /** FIFO_WRITE */
    function Write(e: Entry): (m: Mem)
      requires Shape()
      ensures m.Shape()
    {
      this.(ring := ring[head := e], head := if head + 1 >= FIFO_ENTRIES then 0 else head + 1)
    }

    /** The card takes the next entry; an equal head and tail mean there is none. */
    function Consume(): (m: Mem)
      requires Shape()
      ensures m.Shape()
    {
      if fifoTail == fifoHead then this
      else this.(received := received + [ring[fifoTail]],
                 fifoTail := if fifoTail + 1 >= FIFO_ENTRIES then 0 else fifoTail + 1)
    }

    function Do(step: Step): (m: Mem)
      requires Shape()
      ensures m.Shape()
    {
      match step
      case Write(e) => Write(e)
      case Publish => this.(fifoHead := head)
      case Consume => Consume()
      case ReadTail => this.(tailCache := fifoTail)
    }

    function Run(steps: seq<Step>): (m: Mem)
      requires Shape()
      ensures m.Shape()
    {
      if steps == [] then this else Run(steps[..|steps| - 1]).Do(steps[|steps| - 1])
    }

    /** How many entries the card can still take before it meets the published head. */
    function Ahead(): nat {
      (fifoHead - fifoTail) % FIFO_ENTRIES
    }
  }

  // ---------- what it stands for ----------

  /** An unbounded queue: everything written, and how far it has been published, consumed by the
      card, and seen consumed by the driver. */
  datatype Log = Log(written: seq<Entry>, published: nat, consumed: nat, tailRead: nat)
  {
    predicate Shape() {
      tailRead <= consumed <= published <= |written|
    }

    function Do(step: Step): Log {
      match step
      case Write(e) => this.(written := written + [e])
      case Publish => this.(published := |written|)
      case Consume => if consumed < published then this.(consumed := consumed + 1) else this
      case ReadTail => this.(tailRead := consumed)
    }

    function Run(steps: seq<Step>): Log {
      if steps == [] then this else Run(steps[..|steps| - 1]).Do(steps[|steps| - 1])
    }

    /** With the next entry, fewer than 1024 are unconsumed. */
    predicate Room() {
      |written| + 1 - consumed < FIFO_ENTRIES
    }

    /** Fewer than 1024 entries written since the driver last read the tail. */
    predicate Recent() {
      |written| - tailRead < FIFO_ENTRIES
    }
  }

  /** Every write of a run finds room. */
  ghost predicate Roomy(l: Log, steps: seq<Step>) {
    steps != [] ==>
      var before := steps[..|steps| - 1];
      Roomy(l, before) && (steps[|steps| - 1].Write? ==> l.Run(before).Room())
  }

  ghost predicate Represents(m: Mem, l: Log) {
    && m.Shape() && l.Shape()
    && |l.written| - l.consumed < FIFO_ENTRIES
    && m.head == |l.written| % FIFO_ENTRIES
    && m.fifoHead == l.published % FIFO_ENTRIES
    && m.fifoTail == l.consumed % FIFO_ENTRIES
    && m.tailCache == l.tailRead % FIFO_ENTRIES
    && (forall i :: l.consumed <= i < |l.written| ==> m.ring[i % FIFO_ENTRIES] == l.written[i])
    && m.received == l.written[..l.consumed]
  }

  lemma WrapStep(n: nat)
    ensures (n + 1) % FIFO_ENTRIES == if n % FIFO_ENTRIES + 1 >= FIFO_ENTRIES then 0 else n % FIFO_ENTRIES + 1
  {
  }

  /** Two positions less than a ring apart share a slot only if they are equal. */
  lemma SlotsDiffer(i: nat, j: nat)
    requires i <= j < i + FIFO_ENTRIES
    ensures i % FIFO_ENTRIES == j % FIFO_ENTRIES <==> i == j
  {
  }

  lemma SlotsAgree(i: nat, j: nat)
    requires i <= j
    ensures i % FIFO_ENTRIES == j % FIFO_ENTRIES <==> (j - i) % FIFO_ENTRIES == 0
  {
    var qi, qj := i / FIFO_ENTRIES, j / FIFO_ENTRIES;
    assert i == FIFO_ENTRIES * qi + i % FIFO_ENTRIES && j == FIFO_ENTRIES * qj + j % FIFO_ENTRIES;
    assert j - i == FIFO_ENTRIES * (qj - qi) + (j % FIFO_ENTRIES - i % FIFO_ENTRIES);
  }

  lemma WriteRepresents(m: Mem, l: Log, e: Entry)
    requires Represents(m, l) && l.Room()
    ensures Represents(m.Write(e), l.Do(Write(e)))
  {
    var n := |l.written|;
    var l' := l.Do(Write(e));
    WrapStep(n);
    forall i | l.consumed <= i < |l'.written| ensures m.Write(e).ring[i % FIFO_ENTRIES] == l'.written[i] {
      SlotsDiffer(i, n);
    }
    assert l'.written[..l.consumed] == l.written[..l.consumed];
  }

  lemma ConsumeRepresents(m: Mem, l: Log)
    requires Represents(m, l)
    ensures Represents(m.Consume(), l.Do(Consume))
  {
    SlotsDiffer(l.consumed, l.published);
    WrapStep(l.consumed);
    if l.consumed < l.published {
      assert l.written[..l.consumed + 1] == l.written[..l.consumed] + [l.written[l.consumed]];
    }
  }

  lemma StepRepresents(m: Mem, l: Log, step: Step)
    requires Represents(m, l) && (step.Write? ==> l.Room())
    ensures Represents(m.Do(step), l.Do(step))
  {
    match step
    case Write(e) => WriteRepresents(m, l, e);
    case Publish =>
    case Consume => ConsumeRepresents(m, l);
    case ReadTail =>
  }

  /** As long as every write leaves fewer than 1024 entries unconsumed, the ring is the unbounded
      queue: across any number of wraparounds no unconsumed entry is overwritten and the card
      receives exactly the entries written, in order. */
  lemma {:induction false} RingIsQueue(m: Mem, l: Log, steps: seq<Step>)
    requires Represents(m, l) && Roomy(l, steps)
    ensures Represents(m.Run(steps), l.Run(steps))
  {
    if steps != [] {
      var before := steps[..|steps| - 1];
      RingIsQueue(m, l, before);
      StepRepresents(m.Run(before), l.Run(before), steps[|steps| - 1]);
    }
  }

  /** The exit test of fifo_flush, against a tail cache that may be stale: it passes exactly when the
      entries written since the last read of the tail fill whole rings. With fewer than 1024 of them
      that means everything written has been received. */
  lemma FlushTest(m: Mem, l: Log)
    requires Represents(m, l)
    ensures m.tailCache == m.head <==> (|l.written| - l.tailRead) % FIFO_ENTRIES == 0
    ensures m.tailCache == m.head && l.Recent() ==> l.tailRead == |l.written| && m.received == l.written
  {
    SlotsAgree(l.tailRead, |l.written|);
  }

  // ---------- exactly how much one flush can carry ----------

  function Writes(es: seq<Entry>): seq<Step> {
    seq(|es|, i requires 0 <= i < |es| => Write(es[i]))
  }

  /** The card runs until it meets the published head. */
  function CardRuns(m: Mem): (m': Mem)
    requires m.Shape()
    ensures m'.Shape()
    decreases m.Ahead()
  {
    if m.fifoTail == m.fifoHead then m
    else
      ConsumeNearer(m);
      CardRuns(m.Consume())
  }

  lemma ConsumeNearer(m: Mem)
    requires m.Shape() && m.fifoTail != m.fifoHead
    ensures m.Ahead() > 0 && m.Consume().Ahead() == m.Ahead() - 1
  {
  }

  lemma {:induction false} CardRunsRepresents(m: Mem, l: Log)
    requires Represents(m, l)
    ensures Represents(CardRuns(m), l.(consumed := l.published))
    decreases m.Ahead()
  {
    SlotsDiffer(l.consumed, l.published);
    if m.fifoTail != m.fifoHead {
      ConsumeNearer(m);
      ConsumeRepresents(m, l);
      CardRunsRepresents(m.Consume(), l.Do(Consume));
    }
  }

  lemma {:induction false} WritesMove(m: Mem, es: seq<Entry>)
    requires m.Shape()
    ensures var m' := m.Run(Writes(es)); m' == m.(ring := m'.ring, head := m'.head)
  {
    if es != [] {
      var before := es[..|es| - 1];
      assert Writes(es)[..|es| - 1] == Writes(before);
      WritesMove(m, before);
    }
  }

  /** Counted from position c, where the card stands, the ring carries the entries q up to the head. */
  ghost predicate Carries(m: Mem, c: nat, q: seq<Entry>) {
    && m.Shape() && |q| < FIFO_ENTRIES
    && m.head == (c + |q|) % FIFO_ENTRIES
    && forall i :: 0 <= i < |q| ==> m.ring[(c + i) % FIFO_ENTRIES] == q[i]
  }

  /** What the ring still carries of the entries p: whenever 1024 have piled up the head has come
      round to the card and all of them are forgotten. */
  function Kept(p: seq<Entry>): seq<Entry> {
    p[|p| - |p| % FIFO_ENTRIES..]
  }

  lemma KeptLength(p: seq<Entry>)
    ensures |Kept(p)| == |p| % FIFO_ENTRIES
    ensures Kept(p) == p <==> |p| < FIFO_ENTRIES
  {
  }

  lemma KeptBehind(a: seq<Entry>, p: seq<Entry>)
    ensures |a + Kept(p)| == |a| + |p| % FIFO_ENTRIES
    ensures a + Kept(p) == a + p <==> |p| < FIFO_ENTRIES
  {
    KeptLength(p);
  }

  lemma KeptGrows(p: seq<Entry>, e: Entry)
    ensures Kept(p + [e]) == if |Kept(p)| + 1 == FIFO_ENTRIES then [] else Kept(p) + [e]
  {
    WrapStep(|p|);
  }

  lemma WriteCarries(m: Mem, c: nat, q: seq<Entry>, e: Entry)
    requires Carries(m, c, q)
    ensures Carries(m.Write(e), c, if |q| + 1 == FIFO_ENTRIES then [] else q + [e])
  {
    WrapStep(c + |q|);
    if |q| + 1 == FIFO_ENTRIES {
      SlotsAgree(c, c + |q| + 1);
    } else {
      forall i | 0 <= i < |q| + 1 ensures m.Write(e).ring[(c + i) % FIFO_ENTRIES] == (q + [e])[i] {
        SlotsDiffer(c + i, c + |q|);
      }
    }
  }

  lemma {:induction false} WritesCarry(m: Mem, c: nat, q: seq<Entry>, es: seq<Entry>)
    requires Carries(m, c, q)
    ensures Carries(m.Run(Writes(es)), c, Kept(q + es))
  {
    if es == [] {
      assert Kept(q + es) == q;
    } else {
      var before, e := es[..|es| - 1], es[|es| - 1];
      assert Writes(es)[..|es| - 1] == Writes(before) && q + es == q + before + [e];
      WritesCarry(m, c, q, before);
      WriteCarries(m.Run(Writes(before)), c, Kept(q + before), e);
      KeptGrows(q + before, e);
    }
  }

  /** The unconsumed entries and a batch behind them. */
  function Pending(l: Log, es: seq<Entry>): seq<Entry>
    requires l.Shape()
  {
    l.written[l.consumed..] + es
  }

  /** The log that a published batch leaves behind, whatever its length. */
  function Flushed(l: Log, es: seq<Entry>): Log
    requires l.Shape()
  {
    var written := l.written[..l.consumed] + Kept(Pending(l, es));
    l.(written := written, published := |written|)
  }

  lemma RepresentsCarries(m: Mem, l: Log)
    requires Represents(m, l)
    ensures Carries(m, l.consumed, l.written[l.consumed..])
  {
    forall i | 0 <= i < |l.written| - l.consumed
      ensures m.ring[(l.consumed + i) % FIFO_ENTRIES] == l.written[l.consumed..][i]
    {
      assert l.written[l.consumed + i] == l.written[l.consumed..][i];
    }
  }

  lemma CarriesRepresents(m: Mem, l: Log)
    requires l.Shape() && l.published == |l.written| && m.Shape()
    requires Carries(m, l.consumed, l.written[l.consumed..])
    requires m.fifoHead == m.head && m.fifoTail == l.consumed % FIFO_ENTRIES
    requires m.tailCache == l.tailRead % FIFO_ENTRIES && m.received == l.written[..l.consumed]
    ensures Represents(m, l)
  {
    forall i | l.consumed <= i < |l.written| ensures m.ring[i % FIFO_ENTRIES] == l.written[i] {
      assert l.written[i] == l.written[l.consumed..][i - l.consumed];
    }
  }

  /** From any state of the FIFO, a batch written and published leaves exactly what is kept of it and
      of the entries before it; from then on the FIFO is as if the others had never been written. */
  lemma PublishedBatch(m: Mem, l: Log, es: seq<Entry>, later: seq<Step>)
    requires Represents(m, l) && Roomy(Flushed(l, es), later)
    ensures Represents(m.Run(Writes(es)).Do(Publish).Run(later), Flushed(l, es).Run(later))
  {
    var m', l' := m.Run(Writes(es)).Do(Publish), Flushed(l, es);
    RepresentsCarries(m, l);
    WritesCarry(m, l.consumed, l.written[l.consumed..], es);
    WritesMove(m, es);
    assert l'.written[l'.consumed..] == Kept(Pending(l, es));
    assert l'.written[..l'.consumed] == l.written[..l.consumed];
    CarriesRepresents(m', l');
    RingIsQueue(m', l', later);
  }

  lemma FlushDelivers(m: Mem, l: Log, es: seq<Entry>)
    requires Represents(m, l)
    ensures CardRuns(m.Run(Writes(es)).Do(Publish)).received == m.received + Kept(Pending(l, es))
  {
    var l' := Flushed(l, es);
    PublishedBatch(m, l, es, []);
    CardRunsRepresents(m.Run(Writes(es)).Do(Publish), l');
    assert l'.written[..l'.published] == l'.written;
  }

  /** From any state of the FIFO, a batch written and published in one go brings the card exactly what
      is kept. So it arrives complete and in order, behind what was unconsumed, if and only if there
      are fewer than 1024 entries in all; otherwise only their number modulo 1024 arrive, the last
      ones. */
  lemma OneFlush(m: Mem, l: Log, es: seq<Entry>)
    requires Represents(m, l)
    ensures var m', n := CardRuns(m.Run(Writes(es)).Do(Publish)), |l.written| - l.consumed + |es|;
            && m'.received == m.received + Kept(Pending(l, es))
            && |m'.received| == |m.received| + n % FIFO_ENTRIES
            && (m'.received == l.written + es <==> n < FIFO_ENTRIES)
  {
    FlushDelivers(m, l, es);
    KeptBehind(m.received, Pending(l, es));
    assert l.written + es == m.received + Pending(l, es);
  }

  /** The entries some steps write. */
  function Entries(steps: seq<Step>): seq<Entry> {
    if steps == [] then []
    else
      var last := steps[|steps| - 1];
      Entries(steps[..|steps| - 1]) + if last.Write? then [last.e] else []
  }

  lemma {:induction false} EntriesOfWrites(es: seq<Entry>)
    ensures Entries(Writes(es)) == es
  {
    if es != [] {
      assert Writes(es)[..|es| - 1] == Writes(es[..|es| - 1]);
      EntriesOfWrites(es[..|es| - 1]);
    }
  }

  /** Whatever happens between the writes, a short enough batch always finds room. */
  lemma {:induction false} ShortRoomy(l: Log, steps: seq<Step>)
    requires l.Shape() && |l.written| - l.consumed + |Entries(steps)| < FIFO_ENTRIES
    ensures Roomy(l, steps)
    ensures l.Run(steps).Shape() && l.Run(steps).written == l.written + Entries(steps)
    ensures l.Run(steps).consumed >= l.consumed
  {
    if steps != [] {
      ShortRoomy(l, steps[..|steps| - 1]);
    }
  }

  /** Every way of writing the batch, with the card, and other publishes and reads of the tail, going on
      in between, brings it whole, if and only if the unconsumed entries and the batch are fewer than
      1024. */
  lemma EverySchedule(m: Mem, l: Log, es: seq<Entry>)
    requires Represents(m, l)
    ensures |l.written| - l.consumed + |es| < FIFO_ENTRIES <==>
            forall steps: seq<Step> :: Entries(steps) == es ==>
              CardRuns(m.Run(steps).Do(Publish)).received == l.written + es
  {
    if |l.written| - l.consumed + |es| < FIFO_ENTRIES {
      forall steps: seq<Step> | Entries(steps) == es
        ensures CardRuns(m.Run(steps).Do(Publish)).received == l.written + es
      {
        ScheduleDelivers(m, l, steps);
      }
    } else {
      EntriesOfWrites(es);
      OneFlush(m, l, es);
    }
  }

  lemma ScheduleDelivers(m: Mem, l: Log, steps: seq<Step>)
    requires Represents(m, l) && |l.written| - l.consumed + |Entries(steps)| < FIFO_ENTRIES
    ensures CardRuns(m.Run(steps).Do(Publish)).received == l.written + Entries(steps)
  {
    var l' := l.Run(steps).Do(Publish);
    ShortRoomy(l, steps);
    RingIsQueue(m, l, steps);
    StepRepresents(m.Run(steps), l.Run(steps), Publish);
    CardRunsRepresents(m.Run(steps).Do(Publish), l');
    assert l'.written[..l'.published] == l'.written;
  }

  /** With nothing unconsumed the limit is 1024 entries in the batch itself. */
  lemma SynchronisedFlush(m: Mem, l: Log, es: seq<Entry>)
    requires Represents(m, l) && l.consumed == |l.written|
    ensures var m' := CardRuns(m.Run(Writes(es)).Do(Publish));
            m'.received == m.received + es <==> |es| < FIFO_ENTRIES
  {
    OneFlush(m, l, es);
    assert m.received == l.written;
  }

  /** A batch that brings the unconsumed entries to exactly 1024 is lost for good, and they with it:
      the card sees an empty FIFO, a flush that started synchronised returns at once, and whatever
      is written later, the card receives that and nothing of what was lost. */
  lemma FullBatchLost(m: Mem, l: Log, es: seq<Entry>, later: seq<Step>)
    requires Represents(m, l) && |l.written| - l.consumed + |es| == FIFO_ENTRIES
    requires Roomy(Log(l.written[..l.consumed], l.consumed, l.consumed, l.tailRead), later)
    ensures var m' := m.Run(Writes(es)).Do(Publish);
            var without := Log(l.written[..l.consumed], l.consumed, l.consumed, l.tailRead).Run(later);
            && CardRuns(m') == m' && m'.received == m.received
            && (l.tailRead == l.consumed ==> m'.tailCache == m'.head)
            && Represents(m'.Run(later), without)
            && m'.Run(later).received == without.written[..without.consumed]
  {
    assert Kept(Pending(l, es)) == [];
    assert Flushed(l, es) == Log(l.written[..l.consumed], l.consumed, l.consumed, l.tailRead);
    PublishedBatch(m, l, es, []);
    PublishedBatch(m, l, es, later);
  }

  // ---------- the driver's code ----------

  class Fifo {
    const ring: array<Entry>
    var head: nat
    var tailCache: nat
    /** Card side: its two registers and what it has read. */
    var fifoHead: nat
    var fifoTail: nat
    ghost var received: seq<Entry>
    ghost var log: Log

    ghost function View(): Mem
      reads this, ring
    {
      Mem(ring[..], head, tailCache, fifoHead, fifoTail, received)
    }

    /** The ring still stands for the queue. */
    ghost predicate Exact()
      reads this, ring
    {
      Represents(View(), log)
    }

    /** The FIFO part of kyouko3_open. */
    constructor (blank: Entry)
      ensures View().Shape() && Exact() && log == Log([], 0, 0, 0) && fresh(ring)
    {
      ring := new Entry[FIFO_ENTRIES](_ => blank);
      head, tailCache, fifoHead, fifoTail := 0, 0, 0, 0;
      received, log := [], Log([], 0, 0, 0);
    }

    /** FIFO_WRITE */
    method Write(command: nat, value: nat)
      requires View().Shape()
      modifies this`head, this`log, ring
      ensures View() == old(View()).Do(Step.Write(Entry(command, value)))
      ensures log == old(log).Do(Step.Write(Entry(command, value)))
      ensures old(Exact() && log.Room()) ==> Exact()
    {
      if Exact() && log.Room() {
        WriteRepresents(View(), log, Entry(command, value));
      }
      ring[head] := Entry(command, value);
      head := head + 1;
      if head >= FIFO_ENTRIES {
        head := 0;
      }
      log := log.Do(Step.Write(Entry(command, value)));
    }

    /** K_WRITE_REGISTER(FifoHead, kyouko3.fifo.head) */
    method PublishHead()
      requires View().Shape()
      modifies this`fifoHead, this`log
      ensures View() == old(View()).Do(Publish) && log == old(log).Do(Publish)
      ensures old(Exact()) ==> Exact()
    {
      fifoHead := head;
      log := log.Do(Publish);
    }

    /** kyouko3.fifo.tail_cache = K_READ_REGISTER(FifoTail) */
    method LookAtTail()
      requires View().Shape()
      modifies this`tailCache, this`log
      ensures View() == old(View()).Do(ReadTail) && log == old(log).Do(ReadTail)
      ensures old(Exact()) ==> Exact()
    {
      tailCache := fifoTail;
      log := log.Do(ReadTail);
    }

    /** The card takes one entry. */
    method CardTakes()
      requires View().Shape() && fifoTail != fifoHead
      modifies this`fifoTail, this`received, this`log
      ensures View() == old(View()).Consume() && log == old(log).Do(Consume)
      ensures View().Ahead() == old(View().Ahead()) - 1
      ensures old(Exact()) ==> Exact()
    {
      ConsumeNearer(View());
      if Exact() {
        ConsumeRepresents(View(), log);
      }
      received := received + [ring[fifoTail]];
      fifoTail := if fifoTail + 1 >= FIFO_ENTRIES then 0 else fifoTail + 1;
      log := log.Do(Consume);
    }

    /** The card, left alone for a while: it takes some entries, at least one if there is one. */
    method CardWorks()
      requires View().Shape()
      modifies this`fifoTail, this`received, this`log
      ensures View().Shape()
      ensures old(View().Ahead()) > 0 ==> View().Ahead() < old(View().Ahead())
      ensures old(View().Ahead()) == 0 ==> View().Ahead() == 0
      ensures old(Exact()) ==> Exact() && log.written == old(log.written) && log.tailRead == old(log.tailRead)
    {
      var more := true;
      while more && fifoTail != fifoHead
        invariant View().Shape()
        invariant View().Ahead() < old(View().Ahead()) || (more && View().Ahead() == old(View().Ahead()))
                  || (fifoTail == fifoHead && View().Ahead() == old(View().Ahead()))
        invariant old(Exact()) ==> Exact() && log.written == old(log.written) && log.tailRead == old(log.tailRead)
        decreases View().Ahead()
      {
        CardTakes();
        more := *;
      }
    }

    /** One round of the loop of fifo_flush. */
    method FlushRound()
      requires View().Shape() && fifoHead == head && tailCache != head
      modifies this`tailCache, this`fifoTail, this`received, this`log
      ensures View().Shape()
      ensures View().Ahead() < old(View().Ahead()) || (View().Ahead() == old(View().Ahead()) && tailCache == head)
      ensures old(Exact()) ==> Exact() && log.written == old(log.written) && log.tailRead >= old(log.tailRead)
    {
      LookAtTail();
      CardWorks();
    }

    /** fifo_flush with the interrupt handler silent. It ends whatever was written, given that the card
        makes progress. If the ring stands for the queue and fewer than 1024 entries are new since the
        tail was last read, it ends only when the card has received everything written. */
    method Flush()
      requires View().Shape()
      modifies this`tailCache, this`fifoHead, this`fifoTail, this`received, this`log
      ensures View().Shape() && tailCache == head
      ensures old(Exact()) ==> Exact() && log.written == old(log.written)
      ensures old(Exact() && log.Recent()) ==> received == log.written
    {
      PublishHead();
      while tailCache != head
        invariant View().Shape() && fifoHead == head
        invariant old(Exact()) ==> Exact() && log.written == old(log.written) && log.tailRead >= old(log.tailRead)
        decreases View().Ahead() + if tailCache != head then 1 else 0
      {
        FlushRound();
      }
      if Exact() {
        FlushTest(View(), log);
      }
    }
  }
}
