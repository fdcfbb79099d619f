/** fifo_flush with the card and the interrupt handler acting anywhere in it. */
module DmaFlush {
  import opened CommandFifo
  import opened DmaRing
  import opened DmaSafety
  import opened DmaTheorems

  // ---------- what goes on meanwhile ----------

  /** Reading the tail changes nothing else. */
  lemma ReadTailWork(s: State)
    requires Inv(s) && Enabled(s, UserReadTail)
    ensures var m := Apply(s, UserReadTail);
            && Inv(m) && Work(m) == Work(s) && m.pc == s.pc
            && m.log == s.log.(tailRead := s.log.consumed)
  {
    StepKeeps(s, UserReadTail);
  }

  function Events(labels: seq<Label>): nat {
    if labels == [] then 0 else (if IsEvent(labels[0]) then 1 else 0) + Events(labels[1..])
  }

  /** While the user only reads the tail, the card and the handler can do no more than the work there
      was, so the head stops moving under the loop. */
  lemma {:induction false} EventsBounded(s: State, labels: seq<Label>)
    requires Inv(s) && Legal(s, labels) && forall l :: l in labels ==> IsEvent(l) || l.UserReadTail?
    ensures Inv(Exec(s, labels)) && Work(Exec(s, labels)) + Events(labels) <= Work(s)
    ensures Exec(s, labels).pc == s.pc
    ensures s.log.published == |s.log.written| ==>
              Exec(s, labels).log.published == |Exec(s, labels).log.written|
    decreases |labels|
  {
    if labels != [] {
      if IsEvent(labels[0]) {
        EventShrinks(s, labels[0]);
      } else {
        ReadTailWork(s);
      }
      EventsBounded(Apply(s, labels[0]), labels[1..]);
    }
  }

  /** The card and the handler alone lead from one state to the other. */
  ghost predicate Drifts(s: State, t: State) {
    exists labels :: (forall l :: l in labels ==> IsEvent(l)) && Legal(s, labels) && Exec(s, labels) == t
  }

  lemma DriftsNowhere(s: State)
    ensures Drifts(s, s)
  {
    assert Legal(s, []) && Exec(s, []) == s;
  }

  lemma OneStep(t: State, l: Label)
    requires Enabled(t, l)
    ensures Legal(t, [l]) && Exec(t, [l]) == Apply(t, l)
  {
    assert [l][1..] == [];
    assert Legal(Apply(t, l), []) && Exec(Apply(t, l), []) == Apply(t, l);
  }

  lemma DriftsOn(s: State, t: State, l: Label)
    requires Drifts(s, t) && IsEvent(l) && Enabled(t, l)
    ensures Drifts(s, Apply(t, l))
  {
    var labels :| (forall l :: l in labels ==> IsEvent(l)) && Legal(s, labels) && Exec(s, labels) == t;
    OneStep(t, l);
    ExecConcat(s, labels, [l]);
    assert Legal(s, labels + [l]) && Exec(s, labels + [l]) == Apply(t, l);
  }

  lemma DriftsFurther(s: State, t: State, u: State)
    requires Drifts(s, t) && Drifts(t, u)
    ensures Drifts(s, u)
  {
    var a :| (forall l :: l in a ==> IsEvent(l)) && Legal(s, a) && Exec(s, a) == t;
    var b :| (forall l :: l in b ==> IsEvent(l)) && Legal(t, b) && Exec(t, b) == u;
    ExecConcat(s, a, b);
    assert Legal(s, a + b) && Exec(s, a + b) == u;
  }

  // ---------- the exact condition ----------

  /** Entries new since the tail was last read. */
  function Unseen(l: Log): int {
    |l.written| - l.tailRead
  }

  /** Entries the card has not consumed. */
  function Left(l: Log): int {
    |l.written| - l.consumed
  }

  /** Entries the handler has still to write: a pair for each queued call behind the first. */
  function Due(s: State): int {
    if s.queuedCount > 0 then 2 * (s.queuedCount - 1) else 0
  }

  /** After k more pairs of the handler the exit test would pass on a stale tail, with something left. */
  predicate Misleads(unseen: int, left: int, k: int) {
    unseen + 2 * k > 0 && (unseen + 2 * k) % FIFO_ENTRIES == 0 && (k > 0 || left > 0)
  }

  ghost predicate Ample(unseen: int, left: int, due: int) {
    && left + due < FIFO_ENTRIES
    && forall k :: 0 <= k && 2 * k <= due ==> !Misleads(unseen, left, k)
  }

  /** What a caller has to see to: even with all that the handler will add fewer than 1024 entries are
      unconsumed, and at no point do the new ones fill whole rings. */
  ghost predicate FlushSafe(s: State) {
    Ample(Unseen(s.log), Left(s.log), Due(s))
  }

  /** Counting the new entries and those to come, fewer than 1024 are enough. */
  lemma FewSafe(s: State)
    requires s.log.Shape() && Unseen(s.log) + Due(s) < FIFO_ENTRIES
    ensures FlushSafe(s)
  {
  }

  predicate Outside(pc: Pc) {
    pc.User? || pc.Unbound?
  }

  /** A step of the card leaves the queue and what is written alone. */
  lemma CardCounts(s: State, l: Label)
    requires Inv(s) && (l.CardConsume? || l.CardComplete?) && Enabled(s, l)
    ensures var t := Apply(s, l);
            && Inv(t) && t.pc == s.pc && t.queuedCount == s.queuedCount && Work(t) < Work(s)
            && t.log == s.log.(consumed := t.log.consumed) && s.log.consumed <= t.log.consumed
  {
    EventShrinks(s, l);
  }

  /** The handler turns what was due into what is written. */
  lemma InterruptCounts(s: State)
    requires Inv(s) && Enabled(s, Interrupt)
    ensures var t, n := Apply(s, Interrupt), if s.queuedCount > 1 then 2 else 0;
            && Inv(t) && t.pc == s.pc && t.queuedCount == s.queuedCount - 1 && Work(t) < Work(s)
            && |t.log.written| == |s.log.written| + n && Due(t) == Due(s) - n
            && t.log.tailRead == s.log.tailRead && t.log.consumed == s.log.consumed
            && (s.log.published == |s.log.written| ==> t.log.published == |t.log.written|)
  {
    HandlerCounts(s);
    EventShrinks(s, Interrupt);
  }

  lemma AmpleStep(unseen: int, left: int, due: int, n: int, left': int)
    requires Ample(unseen, left, due) && (n == 0 || n == 2) && 0 <= left' <= left + n
    ensures Ample(unseen + n, left', due - n)
  {
    forall k | 0 <= k && 2 * k <= due - n ensures !Misleads(unseen + n, left', k) {
      assert !Misleads(unseen, left, if n == 0 then k else k + 1);
    }
  }

  lemma EventSafe(s: State, l: Label)
    requires Inv(s) && IsEvent(l) && Enabled(s, l) && FlushSafe(s)
    ensures FlushSafe(Apply(s, l))
  {
    var t := Apply(s, l);
    if l.Interrupt? {
      InterruptCounts(s);
    } else {
      CardCounts(s, l);
    }
    CountsSafe(s, t, |t.log.written| - |s.log.written|);
  }

  lemma CountsSafe(s: State, t: State, n: int)
    requires FlushSafe(s) && (n == 0 || n == 2) && Due(t) == Due(s) - n && Unseen(t.log) == Unseen(s.log) + n
    requires 0 <= Left(t.log) <= Left(s.log) + n
    ensures FlushSafe(t)
  {
    AmpleStep(Unseen(s.log), Left(s.log), Due(s), n, Left(t.log));
  }

  lemma SameCounts(s: State, t: State)
    requires Due(t) == Due(s) && Unseen(t.log) == Unseen(s.log) && Left(t.log) == Left(s.log)
    ensures FlushSafe(s) <==> FlushSafe(t)
  {
  }

  lemma ReadTailSafe(s: State)
    requires Inv(s) && Enabled(s, UserReadTail) && FlushSafe(s)
    ensures FlushSafe(Apply(s, UserReadTail))
  {
    ReadTailWork(s);
    FewSafe(Apply(s, UserReadTail));
  }

  lemma {:induction false} EventsKeep(s: State, labels: seq<Label>)
    requires Inv(s) && Outside(s.pc) && Legal(s, labels) && forall l :: l in labels ==> IsEvent(l)
    ensures var t := Exec(s, labels);
            && Inv(t) && t.pc == s.pc && Work(t) <= Work(s) && (Work(t) == Work(s) ==> t == s)
            && (FlushSafe(s) ==> FlushSafe(t))
            && (s.log.published == |s.log.written| ==> t.log.published == |t.log.written|)
    decreases |labels|
  {
    if labels != [] {
      EventShrinks(s, labels[0]);
      if FlushSafe(s) {
        EventSafe(s, labels[0]);
      }
      EventsKeep(Apply(s, labels[0]), labels[1..]);
    }
  }

  lemma DriftKeeps(s: State, t: State)
    requires Inv(s) && Outside(s.pc) && Drifts(s, t)
    ensures Inv(t) && t.pc == s.pc && Work(t) <= Work(s) && (Work(t) == Work(s) ==> t == s)
    ensures FlushSafe(s) ==> FlushSafe(t)
    ensures s.log.published == |s.log.written| ==> t.log.published == |t.log.written|
  {
    var labels :| (forall l :: l in labels ==> IsEvent(l)) && Legal(s, labels) && Exec(s, labels) == t;
    EventsKeep(s, labels);
  }

  /** If fewer than 1024 entries are new, those to come included, this stays so whenever the tail is
      read; so whenever the exit test passes everything written has been received. */
  lemma {:induction false} FewStay(s: State, labels: seq<Label>)
    requires Inv(s) && Outside(s.pc) && Legal(s, labels)
    requires forall l :: l in labels ==> IsEvent(l) || l.UserReadTail?
    requires Unseen(s.log) + Due(s) < FIFO_ENTRIES
    ensures var t := Exec(s, labels);
            && t.log.Recent() && Unseen(t.log) + Due(t) <= Unseen(s.log) + Due(s)
            && (Passes(t) ==> t.mem.received == t.log.written)
    decreases |labels|
  {
    if labels == [] {
      FlushTest(s.mem, s.log);
    } else {
      if labels[0].Interrupt? {
        InterruptCounts(s);
      } else if IsEvent(labels[0]) {
        CardCounts(s, labels[0]);
      } else {
        ReadTailWork(s);
      }
      FewStay(Apply(s, labels[0]), labels[1..]);
    }
  }

  // ---------- the loop ----------

  /** The exit test of fifo_flush. */
  predicate Passes(s: State) {
    s.mem.tailCache == s.mem.head
  }

  ghost predicate Quiet(s: State) {
    forall l :: IsEvent(l) ==> !Enabled(s, l)
  }

  /** From one test of the loop to the next: the tail is read, with events before and after, at least
      one unless there is none. */
  ghost predicate Round(a: State, b: State) {
    exists m :: Drifts(a, m) && Yields(a, m, b)
  }

  ghost predicate Yields(a: State, m: State, b: State) {
    && Enabled(m, UserReadTail) && Drifts(Apply(m, UserReadTail), b)
    && (m == a && b == Apply(m, UserReadTail) ==> Quiet(a))
  }

  /** The states in which the loop makes its test, all but the last one failing it. */
  ghost predicate FlushLoop(tests: seq<State>) {
    |tests| > 1 ==>
      var before := tests[..|tests| - 1];
      FlushLoop(before) && !Passes(before[|before| - 1]) && Round(before[|before| - 1], tests[|tests| - 1])
  }

  lemma LoopOn(tests: seq<State>, b: State)
    requires tests != [] && FlushLoop(tests) && !Passes(tests[|tests| - 1]) && Round(tests[|tests| - 1], b)
    ensures FlushLoop(tests + [b])
  {
    Before(tests, b);
  }

  lemma Before<T>(q: seq<T>, x: T)
    ensures (q + [x])[..|q|] == q
  {
  }

  /** A call of fifo_flush from s, up to the last of these tests. */
  ghost predicate FlushBegun(s: State, tests: seq<State>) {
    Enabled(s, UserPublish) && tests != [] && Drifts(Apply(s, UserPublish), tests[0]) && FlushLoop(tests)
  }

  /** The call returns there. */
  ghost predicate FlushRun(s: State, tests: seq<State>) {
    FlushBegun(s, tests) && Passes(tests[|tests| - 1])
  }

  /** Once nothing more can happen by itself, one more read of the tail ends the loop. */
  lemma QuietEnds(s: State)
    requires Inv(s) && s.log.published == |s.log.written| && Enabled(s, UserReadTail) && Quiet(s)
    ensures Passes(Apply(s, UserReadTail))
  {
    assert IsEvent(CardConsume) && !Enabled(s, CardConsume);
    SlotsDiffer(s.log.consumed, s.log.published);
  }

  lemma RoundKeeps(a: State, b: State)
    requires Inv(a) && Outside(a.pc) && a.log.published == |a.log.written| && Round(a, b)
    ensures Inv(b) && b.pc == a.pc && b.log.published == |b.log.written|
    ensures Work(b) < Work(a) || (Work(b) == Work(a) && Passes(b))
    ensures FlushSafe(a) ==> FlushSafe(b)
  {
    var m :| Drifts(a, m) && Yields(a, m, b);
    var r := Apply(m, UserReadTail);
    DriftKeeps(a, m);
    ReadTailWork(m);
    DriftKeeps(r, b);
    if FlushSafe(a) {
      ReadTailSafe(m);
    }
    if Work(b) == Work(a) {
      QuietEnds(a);
    }
  }

  lemma {:induction false} LoopKeeps(tests: seq<State>)
    requires tests != [] && FlushLoop(tests)
    requires Inv(tests[0]) && Outside(tests[0].pc) && tests[0].log.published == |tests[0].log.written|
    ensures var a, b := tests[0], tests[|tests| - 1];
            && Inv(b) && b.pc == a.pc && b.log.published == |b.log.written|
            && |tests| - 1 + Work(b) <= Work(a) + (if Passes(b) then 1 else 0)
            && (FlushSafe(a) ==> FlushSafe(b))
  {
    if |tests| > 1 {
      var before := tests[..|tests| - 1];
      LoopKeeps(before);
      RoundKeeps(before[|before| - 1], tests[|tests| - 1]);
    }
  }

  lemma PublishKeeps(s: State)
    requires Inv(s) && Enabled(s, UserPublish)
    ensures var p := Apply(s, UserPublish);
            && Inv(p) && p.pc == s.pc && p.log == s.log.(published := |s.log.written|)
            && p.queuedCount == s.queuedCount && Work(p) == Work(s)
            && (FlushSafe(s) <==> FlushSafe(p))
  {
    StepKeeps(s, UserPublish);
    SameCounts(s, Apply(s, UserPublish));
  }

  lemma BegunKeeps(s: State, tests: seq<State>)
    requires Inv(s) && FlushBegun(s, tests)
    ensures var e := tests[|tests| - 1];
            && Inv(e) && e.pc == s.pc && e.log.published == |e.log.written|
            && 0 <= Work(e) && |tests| - 1 + Work(e) <= Work(s) + (if Passes(e) then 1 else 0)
            && (FlushSafe(s) ==> FlushSafe(e))
  {
    PublishKeeps(s);
    DriftKeeps(Apply(s, UserPublish), tests[0]);
    LoopKeeps(tests);
    WorkPositive(tests[|tests| - 1]);
  }

  /** What is left to do before the exit test is bound to pass. */
  ghost function ToTest(s: State): nat
    requires Inv(s)
  {
    WorkPositive(s);
    Work(s) + if Passes(s) then 0 else 1
  }

  lemma NextTest(s: State, tests: seq<State>, b: State)
    requires Inv(s) && FlushBegun(s, tests) && !Passes(tests[|tests| - 1]) && Round(tests[|tests| - 1], b)
    ensures FlushBegun(s, tests + [b]) && Inv(tests[|tests| - 1]) && Inv(b) && ToTest(b) < ToTest(tests[|tests| - 1])
  {
    BegunKeeps(s, tests);
    RoundKeeps(tests[|tests| - 1], b);
    LoopOn(tests, b);
  }

  /** So with a card that makes progress fifo_flush returns, however its rounds and the interrupts
      interleave: after at most one round more than the work there was. */
  lemma FlushReturns(s: State, tests: seq<State>)
    requires Inv(s) && FlushBegun(s, tests)
    ensures |tests| - 1 <= Work(s) + 1
  {
    BegunKeeps(s, tests);
  }

  // ---------- the condition is sufficient ----------

  lemma SafeTest(e: State)
    requires Inv(e) && FlushSafe(e) && Passes(e)
    ensures e.mem.received == e.log.written
  {
    FlushTest(e.mem, e.log);
    assert !Misleads(Unseen(e.log), Left(e.log), 0);
  }

  lemma SafeFlush(s: State, tests: seq<State>)
    requires Inv(s) && FlushSafe(s) && FlushRun(s, tests)
    ensures var e := tests[|tests| - 1]; e.mem.received == e.log.written
  {
    BegunKeeps(s, tests);
    SafeTest(tests[|tests| - 1]);
  }

  // ---------- and necessary ----------

  /** The card goes on until the oldest call is done. */
  lemma {:induction false} OldestDone(s: State) returns (t: State)
    requires Inv(s) && s.pc.User? && s.queuedCount > 0 && s.log.published == |s.log.written|
    ensures Drifts(s, t) && Inv(t) && t.pc == s.pc && t.queuedCount == s.queuedCount && Enabled(t, Interrupt)
    ensures t.log == s.log.(consumed := t.log.consumed)
    decreases Work(s)
  {
    WorkPositive(s);
    if s.card.interrupt {
      t := s;
      DriftsNowhere(s);
    } else {
      var l := if s.card.completed < |s.card.started| then CardComplete else CardConsume;
      OldestWaits(s);
      CardCounts(s, l);
      t := OldestDone(Apply(s, l));
      DriftsNowhere(s);
      DriftsOn(s, s, l);
      DriftsFurther(s, Apply(s, l), t);
    }
  }

  lemma OldestWaits(s: State)
    requires Inv(s) && s.pc.User? && s.queuedCount > 0 && !s.card.interrupt
    ensures s.card.completed < |s.card.started| || Enabled(s, CardConsume)
  {
    if s.card.completed == |s.card.started| {
      assert Published(s.log) != [];
      assert s.log.consumed < s.log.published;
      SlotsDiffer(s.log.consumed, s.log.published);
    }
  }

  /** The handler writes the pairs of the next k queued calls. */
  lemma {:induction false} PairsWritten(s: State, k: nat) returns (t: State)
    requires Inv(s) && s.pc.User? && k < s.queuedCount && s.log.published == |s.log.written|
    ensures Drifts(s, t) && Inv(t) && t.log.tailRead == s.log.tailRead && Unseen(t.log) == Unseen(s.log) + 2 * k
    ensures if k == 0 then t == s else Left(t.log) >= 2
    ensures t.pc == s.pc && t.queuedCount == s.queuedCount - k && t.log.published == |t.log.written|
    decreases k
  {
    if k == 0 {
      t := s;
      DriftsNowhere(s);
    } else {
      var a := PairsWritten(s, k - 1);
      var b := OldestDone(a);
      InterruptCounts(b);
      DriftsFurther(s, a, b);
      DriftsOn(s, b, Interrupt);
      t := Apply(b, Interrupt);
    }
  }

  /** The card consumes up to position c. */
  lemma {:induction false} ConsumedTo(s: State, c: nat) returns (t: State)
    requires Inv(s) && s.log.consumed <= c <= s.log.published
    ensures Drifts(s, t) && Inv(t) && t.log == s.log.(consumed := c)
    ensures t.pc == s.pc && t.queuedCount == s.queuedCount
    decreases c
  {
    if s.log.consumed == c {
      t := s;
      DriftsNowhere(s);
    } else {
      var m := ConsumedTo(s, c - 1);
      TakesOne(m);
      DriftsOn(s, m, CardConsume);
      t := Apply(m, CardConsume);
    }
  }

  lemma TakesOne(s: State)
    requires Inv(s) && s.log.consumed < s.log.published
    ensures Enabled(s, CardConsume)
    ensures var t := Apply(s, CardConsume);
            && Inv(t) && t.pc == s.pc && t.queuedCount == s.queuedCount
            && t.log == s.log.(consumed := s.log.consumed + 1)
  {
    SlotsDiffer(s.log.consumed, s.log.published);
    CardCounts(s, CardConsume);
  }

  /** The first test comes after k interrupts and passes on the tail the caller left. */
  lemma MisledAtOnce(p: State, k: nat) returns (e: State)
    requires Inv(p) && Outside(p.pc) && p.log.published == |p.log.written|
    requires 2 * k <= Due(p) && Misleads(Unseen(p.log), Left(p.log), k)
    ensures Drifts(p, e) && Passes(e) && Inv(e) && Left(e.log) > 0
  {
    if k == 0 {
      e := p;
      DriftsNowhere(p);
    } else {
      BusyUser(p);
      e := PairsWritten(p, k);
    }
    FlushTest(e.mem, e.log);
  }

  lemma BusyUser(s: State)
    requires Inv(s) && Outside(s.pc) && s.queuedCount > 0
    ensures s.pc.User?
  {
  }

  /** The tail is read in time, but then the handler's pairs make the new entries a whole ring. */
  lemma MisledLater(a: State) returns (e: State)
    requires Inv(a) && Outside(a.pc) && a.log.published == |a.log.written|
    requires Left(a.log) + Due(a) >= FIFO_ENTRIES
    ensures Round(a, e) && Passes(e) && Inv(e) && Left(e.log) > 0
  {
    PairsToCome(a);
    var k := a.queuedCount - 1;
    var m := ConsumedTo(a, |a.log.written| + 2 * k - FIFO_ENTRIES);
    ReadTailWork(m);
    e := AfterReading(Apply(m, UserReadTail), k);
    assert Yields(a, m, e);
  }

  lemma PairsToCome(s: State)
    requires Inv(s) && Outside(s.pc) && Left(s.log) + Due(s) >= FIFO_ENTRIES
    ensures s.pc.User? && 1 < s.queuedCount <= BUFFERS && 0 < Left(s.log) < FIFO_ENTRIES
  {
  }

  lemma AfterReading(r: State, k: nat) returns (e: State)
    requires Inv(r) && r.pc.User? && 0 < k < r.queuedCount && r.log.published == |r.log.written|
    requires Unseen(r.log) + 2 * k == FIFO_ENTRIES
    ensures Drifts(r, e) && e != r && Passes(e) && Inv(e) && Left(e.log) > 0
  {
    e := PairsWritten(r, k);
    WholeRing(e);
  }

  lemma WholeRing(e: State)
    requires Inv(e) && Unseen(e.log) == FIFO_ENTRIES
    ensures Passes(e)
  {
    FlushTest(e.mem, e.log);
  }

  lemma Flaw(s: State) returns (atOnce: bool, k: nat)
    requires !FlushSafe(s)
    ensures if atOnce then 2 * k <= Due(s) && Misleads(Unseen(s.log), Left(s.log), k)
            else Left(s.log) + Due(s) >= FIFO_ENTRIES && !Misleads(Unseen(s.log), Left(s.log), 0)
  {
    if j: nat :| 2 * j <= Due(s) && Misleads(Unseen(s.log), Left(s.log), j) {
      atOnce, k := true, j;
    } else {
      atOnce, k := false, 0;
      assert 0 <= Due(s);
    }
  }

  lemma FailsFirst(p: State)
    requires Inv(p) && Left(p.log) > 0 && !Misleads(Unseen(p.log), Left(p.log), 0)
    ensures !Passes(p)
  {
    FlushTest(p.mem, p.log);
  }

  /** From the publish on: some course of events ends the loop with something left. */
  lemma SomeCourse(p: State) returns (tests: seq<State>)
    requires Inv(p) && Outside(p.pc) && p.log.published == |p.log.written| && !FlushSafe(p)
    ensures tests != [] && Drifts(p, tests[0]) && FlushLoop(tests)
    ensures var e := tests[|tests| - 1]; Passes(e) && Inv(e) && Left(e.log) > 0
  {
    var atOnce, k := Flaw(p);
    if atOnce {
      var e := MisledAtOnce(p, k);
      tests := [e];
    } else {
      PairsToCome(p);
      FailsFirst(p);
      var e := MisledLater(p);
      DriftsNowhere(p);
      LoopOn([p], e);
      tests := [p] + [e];
    }
  }

  lemma UnsafeFlush(s: State) returns (tests: seq<State>)
    requires Inv(s) && Enabled(s, UserPublish) && !FlushSafe(s)
    ensures FlushRun(s, tests) && tests[|tests| - 1].mem.received != tests[|tests| - 1].log.written
  {
    PublishKeeps(s);
    tests := SomeCourse(Apply(s, UserPublish));
    Unreceived(tests[|tests| - 1]);
  }

  lemma Unreceived(e: State)
    requires Inv(e) && Left(e.log) > 0
    ensures e.mem.received != e.log.written
  {
    assert |e.mem.received| < |e.log.written|;
  }

  /** A call of fifo_flush returns with everything received, whatever the card and the handler do
      meanwhile, if and only if the caller saw to it. */
  lemma FlushExact(s: State)
    requires Inv(s) && Enabled(s, UserPublish)
    ensures FlushSafe(s) <==>
            forall tests: seq<State> :: FlushRun(s, tests) ==>
              tests[|tests| - 1].mem.received == tests[|tests| - 1].log.written
  {
    if FlushSafe(s) {
      forall tests: seq<State> | FlushRun(s, tests)
        ensures tests[|tests| - 1].mem.received == tests[|tests| - 1].log.written
      {
        SafeFlush(s, tests);
      }
    } else {
      var tests := UnsafeFlush(s);
      assert FlushRun(s, tests);
    }
  }
}
