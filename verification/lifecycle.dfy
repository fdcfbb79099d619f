/** Who holds what between kyouko3_open and kyouko3_release. Allocations are assumed to succeed;
    enabling MSI and requesting the interrupt may fail. */
module Lifecycle {

  const BUFFERS: nat := 8

  /** Everything acquired gets a fresh number. `held` is what the kernel has handed out and not got
      back, `faults` counts releases of something not held; the rest are the driver's handles. */
  datatype State = State(
    held: set<nat>, next: nat, faults: nat,
    control: nat, ram: nat, fifo: nat,
    msi: nat, irq: nat, buffers: seq<nat>, dmaMapped: bool)
  {
    predicate Shape() {
      |buffers| == BUFFERS
    }

    /** The handles of the device file. */
    function FileHandles(): set<nat> {
      {control, ram, fifo}
    }

    /** The handles of a bound ring. */
    function RingHandles(): set<nat> {
      {msi, irq} + set b | b in buffers
    }
  }

  /** `binds` fail at MSI, at the interrupt, or not at all. */
  datatype Op = Open | Bind(msiOk: bool, irqOk: bool) | Unbind | Release

  function Take(s: State): State {
    s.(held := s.held + {s.next}, next := s.next + 1)
  }

  function Give(s: State, t: nat): State {
    if t in s.held then s.(held := s.held - {t}) else s.(faults := s.faults + 1)
  }

  function TakeBuffers(s: State, i: nat): State
    requires s.Shape() && i <= BUFFERS
    ensures TakeBuffers(s, i).Shape()
  {
    if i == 0 then s
    else
      var m := TakeBuffers(s, i - 1);
      Take(m).(buffers := m.buffers[i - 1 := m.next])
  }

  function GiveBuffers(s: State, i: nat): (s': State)
    requires s.Shape() && i <= BUFFERS
    ensures s' == s.(held := s'.held, faults := s'.faults)
  {
    if i == 0 then s else var m := GiveBuffers(s, i - 1); Give(m, s.buffers[i - 1])
  }

  function LateUnbind(s: State): (s': State)
    requires s.Shape()
    ensures s' == s.(held := s'.held, faults := s'.faults, dmaMapped := false)
  {
    var m := GiveBuffers(s, BUFFERS);
    Give(Give(m, s.irq), s.msi).(dmaMapped := false)
  }

  function Do(s: State, op: Op): (s': State)
    requires s.Shape()
    ensures s'.Shape()
  {
    match op
    case Open =>
      Take(Take(Take(s))).(control := s.next, ram := s.next + 1, fifo := s.next + 2, dmaMapped := false)
    case Bind(msiOk, irqOk) =>
      if s.dmaMapped || !msiOk then s
      else
        var m := Take(s).(msi := s.next);
        if !irqOk then Give(m, m.msi)
        else TakeBuffers(Take(m).(irq := m.next), BUFFERS).(dmaMapped := true)
    case Unbind => if s.dmaMapped then LateUnbind(s) else s
    case Release =>
      var m := if s.dmaMapped then LateUnbind(s) else s;
      Give(Give(Give(m, s.fifo), s.control), s.ram)
  }

  // ---------- sequences ----------

  /** How many files are open. */
  function Files(ops: seq<Op>): int {
    if ops == [] then 0
    else
      var before, op := Files(ops[..|ops| - 1]), ops[|ops| - 1];
      if op.Open? then before + 1 else if op.Release? then before - 1 else before
  }

  /** Every call but open comes through an open file. */
  ghost predicate Legal(ops: seq<Op>) {
    ops != [] ==> Legal(ops[..|ops| - 1]) && (ops[|ops| - 1].Open? || Files(ops[..|ops| - 1]) > 0)
  }

  /** The file is never opened while it is open. */
  ghost predicate OneFile(ops: seq<Op>) {
    ops != [] ==> OneFile(ops[..|ops| - 1]) && (ops[|ops| - 1].Open? ==> Files(ops[..|ops| - 1]) == 0)
  }

  function Run(s: State, ops: seq<Op>): (s': State)
    requires s.Shape()
    ensures s'.Shape()
  {
    if ops == [] then s else Do(Run(s, ops[..|ops| - 1]), ops[|ops| - 1])
  }

  predicate Initial(s: State) {
    s.Shape() && s.held == {} && s.faults == 0 && !s.dmaMapped
  }

  // ---------- balance ----------

  predicate Distinct(ts: seq<nat>) {
    forall i, j :: 0 <= i < j < |ts| ==> ts[i] != ts[j]
  }

  /** What is held is exactly what the driver's state says, each under its own handle. */
  ghost predicate Balanced(s: State, open: bool) {
    && s.Shape() && s.faults == 0 && (s.dmaMapped ==> open)
    && s.held == (if open then s.FileHandles() else {}) + (if s.dmaMapped then s.RingHandles() else {})
    && (forall t :: t in s.held ==> t < s.next)
    && (open ==> s.control != s.ram && s.control != s.fifo && s.ram != s.fifo)
    && (s.dmaMapped ==> s.msi != s.irq && Distinct(s.buffers) && s.msi !in s.buffers && s.irq !in s.buffers
                        && s.FileHandles() !! s.RingHandles())
  }

  lemma {:induction false} TakeBuffersFresh(s: State, i: nat)
    requires s.Shape() && i <= BUFFERS
    ensures var m := TakeBuffers(s, i);
            && m == s.(held := m.held, next := s.next + i, buffers := m.buffers)
            && (forall k :: 0 <= k < i ==> m.buffers[k] == s.next + k)
            && forall t :: t in m.held <==> t in s.held || s.next <= t < s.next + i
  {
    if i > 0 {
      TakeBuffersFresh(s, i - 1);
    }
  }

  lemma {:induction false} GiveBuffersAll(s: State, i: nat)
    requires s.Shape() && i <= BUFFERS && Distinct(s.buffers) && forall b :: b in s.buffers ==> b in s.held
    ensures GiveBuffers(s, i) == s.(held := s.held - set b | b in s.buffers[..i])
  {
    if i > 0 {
      GiveBuffersAll(s, i - 1);
      assert s.buffers[i - 1] in s.buffers;
      assert s.buffers[..i] == s.buffers[..i - 1] + [s.buffers[i - 1]];
    }
  }

  /** An unbind returns exactly what the bound ring held. */
  lemma LateUnbindGives(s: State)
    requires Balanced(s, true) && s.dmaMapped
    ensures LateUnbind(s) == s.(held := s.FileHandles(), dmaMapped := false)
  {
    GiveBuffersAll(s, BUFFERS);
    assert s.buffers[..BUFFERS] == s.buffers;
    assert s.held - (set b | b in s.buffers) == s.FileHandles() + {s.msi, s.irq};
    assert s.FileHandles() + {s.msi, s.irq} - {s.irq} - {s.msi} == s.FileHandles();
  }

  lemma BindTakes(s: State)
    requires Balanced(s, true) && !s.dmaMapped
    ensures Balanced(Do(s, Bind(true, true)), true) && Do(s, Bind(true, true)).dmaMapped
  {
    var m := Take(s).(msi := s.next);
    var m2 := Take(m).(irq := m.next);
    var s' := Do(s, Bind(true, true));
    TakeBuffersFresh(m2, BUFFERS);
    assert s'.msi == s.next && s'.irq == s.next + 1;
    forall t ensures t in s'.held <==> t in s'.FileHandles() + s'.RingHandles() {
      if s.next + 2 <= t < s.next + 10 {
        assert s'.buffers[t - s.next - 2] == t;
      }
    }
  }

  lemma DoBalanced(s: State, op: Op, open: bool)
    requires Balanced(s, open) && (open <==> !op.Open?)
    ensures Balanced(Do(s, op), !op.Release?)
  {
    match op
    case Open =>
    case Bind(msiOk, irqOk) =>
      if !s.dmaMapped && msiOk {
        if irqOk { BindTakes(s); }
      }
    case Unbind => if s.dmaMapped { LateUnbindGives(s); }
    case Release => if s.dmaMapped { LateUnbindGives(s); }
  }

  /** With one file open at a time, over every sequence of opens, binds that fail or succeed, repeated
      binds, early unbinds and releases: dma_mapped holds exactly when MSI, interrupt and all eight
      buffers are held, nothing is released twice, and nothing is held once the file is closed. */
  lemma {:induction false} BalancedAlways(s: State, ops: seq<Op>)
    requires Initial(s) && Legal(ops) && OneFile(ops)
    ensures 0 <= Files(ops) <= 1 && Balanced(Run(s, ops), Files(ops) == 1)
    ensures Files(ops) == 0 ==> Run(s, ops).held == {}
  {
    if ops != [] {
      BalancedAlways(s, ops[..|ops| - 1]);
      DoBalanced(Run(s, ops[..|ops| - 1]), ops[|ops| - 1], Files(ops[..|ops| - 1]) == 1);
    }
  }

  // ---------- what each call is for ----------

  /** The early unbind gives back the whole ring and leaves the file as it was, and the next bind finds
      the device free. */
  lemma UnbindReturns(s: State)
    requires Balanced(s, true)
    ensures var u := Do(s, Unbind);
            && u == s.(held := s.FileHandles(), dmaMapped := false) && Balanced(u, true)
            && Do(u, Bind(true, true)).dmaMapped && Balanced(Do(u, Bind(true, true)), true)
  {
    if s.dmaMapped {
      LateUnbindGives(s);
    }
    BindTakes(Do(s, Unbind));
  }

  /** A bind of a bound device, a bind without MSI and an unbind of an unbound device change nothing; a
      bind without the interrupt gives the MSI back. */
  lemma Refusals(s: State, msiOk: bool, irqOk: bool)
    requires Balanced(s, true)
    ensures s.dmaMapped ==> Do(s, Bind(msiOk, irqOk)) == s
    ensures !s.dmaMapped ==> Do(s, Unbind) == s && Do(s, Bind(false, irqOk)) == s
    ensures !s.dmaMapped ==> Do(s, Bind(true, false)) == s.(next := s.next + 1, msi := s.next)
  {
  }

  lemma {:induction false} GiveBuffersRemoves(s: State, i: nat)
    requires s.Shape() && i <= BUFFERS
    ensures GiveBuffers(s, i).held == s.held - set b | b in s.buffers[..i]
  {
    if i > 0 {
      GiveBuffersRemoves(s, i - 1);
      assert s.buffers[..i] == s.buffers[..i - 1] + [s.buffers[i - 1]];
    }
  }

  lemma UnbindRemoves(s: State)
    requires s.Shape()
    ensures LateUnbind(s).held == s.held - s.RingHandles()
  {
    GiveBuffersRemoves(s, BUFFERS);
    assert s.buffers[..BUFFERS] == s.buffers;
  }

  /** In any state, after any mixture of calls, an unbind and a release take back what the handles of a
      bound ring name, a release those of the file too, and they take nothing else. */
  lemma ReturnsAlways(s: State)
    requires s.Shape()
    ensures var ring := if s.dmaMapped then s.RingHandles() else {};
            && Do(s, Unbind).held == s.held - ring && !Do(s, Unbind).dmaMapped
            && Do(s, Release).held == s.held - ring - s.FileHandles() && !Do(s, Release).dmaMapped
  {
    UnbindRemoves(s);
  }

  ghost predicate Fresh(ts: set<nat>, first: nat, n: nat) {
    forall t :: t in ts <==> first <= t < first + n
  }

  /** And an open takes three fresh resources, a successful bind ten. */
  lemma TakesAlways(s: State)
    requires s.Shape()
    ensures var o := Do(s, Open);
            && o.held == s.held + o.FileHandles() && Fresh(o.FileHandles(), s.next, 3)
            && !o.dmaMapped && o.faults == s.faults
    ensures var b := Do(s, Bind(true, true));
            !s.dmaMapped ==>
              && b.held == s.held + b.RingHandles() && Fresh(b.RingHandles(), s.next, 10)
              && b.FileHandles() == s.FileHandles() && b.dmaMapped && b.faults == s.faults
  {
    if !s.dmaMapped {
      BindFresh(s);
    }
  }

  lemma BindFresh(s: State)
    requires s.Shape() && !s.dmaMapped
    ensures var b := Do(s, Bind(true, true));
            && Fresh(b.RingHandles(), s.next, 10) && b.held == s.held + b.RingHandles()
            && b.FileHandles() == s.FileHandles() && b.dmaMapped && b.faults == s.faults
  {
    var m, b := Take(Take(s).(msi := s.next)).(irq := s.next + 1), Do(s, Bind(true, true));
    TakeBuffersFresh(m, BUFFERS);
    assert b == TakeBuffers(m, BUFFERS).(dmaMapped := true);
    forall t ensures t in b.RingHandles() <==> s.next <= t < s.next + 10 {
      if s.next + 2 <= t < s.next + 10 {
        assert b.buffers[t - s.next - 2] == t;
      }
    }
  }

  /** Whether a ring is bound, read off the calls. */
  function Bound(ops: seq<Op>): bool {
    if ops == [] then false
    else
      var before, op := ops[..|ops| - 1], ops[|ops| - 1];
      match op
      case Bind(msiOk, irqOk) => Bound(before) || (msiOk && irqOk)
      case _ => false
  }

  function Elements(q: seq<nat>): set<nat> {
    set x | x in q
  }

  lemma {:induction false} DistinctSize(q: seq<nat>)
    requires Distinct(q)
    ensures |Elements(q)| == |q|
  {
    if q == [] {
      assert Elements(q) == {};
    } else {
      var before, last := q[..|q| - 1], q[|q| - 1];
      DistinctSize(before);
      LastApart(q);
      assert |Elements(before) + {last}| == |Elements(before)| + 1;
    }
  }

  lemma LastApart(q: seq<nat>)
    requires q != [] && Distinct(q)
    ensures var before, last := q[..|q| - 1], q[|q| - 1];
            Distinct(before) && last !in Elements(before) && Elements(q) == Elements(before) + {last}
  {
    var before, last := q[..|q| - 1], q[|q| - 1];
    assert q == before + [last];
    forall i | 0 <= i < |before| ensures before[i] != last {
      assert q[i] == before[i];
    }
  }

  lemma DisjointSize(a: set<nat>, b: set<nat>)
    requires a !! b
    ensures |a + b| == |a| + |b|
  {
  }

  lemma RingCount(s: State)
    requires Balanced(s, true) && s.dmaMapped
    ensures |s.RingHandles()| == 10
  {
    DistinctSize(s.buffers);
    assert {s.msi, s.irq} !! Elements(s.buffers);
    assert s.RingHandles() == {s.msi, s.irq} + Elements(s.buffers);
    assert |{s.msi, s.irq}| == 2;
    DisjointSize({s.msi, s.irq}, Elements(s.buffers));
  }

  lemma FileCount(s: State)
    requires Balanced(s, true)
    ensures |s.FileHandles()| == 3
  {
    DisjointSize({s.control, s.ram}, {s.fifo});
    assert s.FileHandles() == {s.control, s.ram} + {s.fifo};
    assert |{s.control, s.ram}| == 2;
  }

  lemma HeldCount(s: State, open: bool)
    requires Balanced(s, open)
    ensures |s.held| == (if open then 3 else 0) + (if s.dmaMapped then 10 else 0)
  {
    if open {
      FileCount(s);
      if s.dmaMapped {
        RingCount(s);
        DisjointSize(s.FileHandles(), s.RingHandles());
      } else {
        assert s.held == s.FileHandles();
      }
    } else {
      assert s.held == {};
    }
  }

  lemma DoBound(s: State, op: Op, bound: bool)
    requires Balanced(s, !op.Open?) && s.dmaMapped == bound
    ensures Do(s, op).dmaMapped == match op
                                   case Bind(msiOk, irqOk) => bound || (msiOk && irqOk)
                                   case _ => false
  {
    if op == Bind(true, true) && !s.dmaMapped {
      BindTakes(s);
    }
  }

  /** With one file open at a time the calls alone decide what is held: the three resources of the file
      while it is open, and ten more exactly from a bind that succeeds to the next unbind or release. */
  lemma {:induction false} HeldByCalls(s: State, ops: seq<Op>)
    requires Initial(s) && Legal(ops) && OneFile(ops)
    ensures Run(s, ops).dmaMapped == Bound(ops)
    ensures |Run(s, ops).held| == 3 * Files(ops) + (if Bound(ops) then 10 else 0)
  {
    BalancedAlways(s, ops);
    if ops != [] {
      var before := ops[..|ops| - 1];
      HeldByCalls(s, before);
      BalancedAlways(s, before);
      DoBound(Run(s, before), ops[|ops| - 1], Bound(before));
    }
    HeldCount(Run(s, ops), Files(ops) == 1);
  }

  // ---------- exactly when ----------

  /** Held, and out of reach of every handle in use. */
  predicate Lost(s: State, t: nat) {
    && s.Shape() && t in s.held && t < s.next && t !in s.FileHandles()
    && (s.dmaMapped ==> t !in s.RingHandles())
  }

  lemma {:induction false} GiveBuffersLoses(s: State, i: nat, t: nat)
    requires Lost(s, t) && s.dmaMapped && i <= BUFFERS
    ensures Lost(GiveBuffers(s, i), t)
  {
    if i > 0 {
      GiveBuffersLoses(s, i - 1, t);
      assert s.buffers[i - 1] in s.buffers;
    }
  }

  lemma BindLoses(s: State, t: nat)
    requires Lost(s, t) && !s.dmaMapped
    ensures Lost(Do(s, Bind(true, true)), t)
  {
    var m := Take(Take(s).(msi := s.next)).(irq := s.next + 1);
    var s' := Do(s, Bind(true, true));
    TakeBuffersFresh(m, BUFFERS);
    assert s' == TakeBuffers(m, BUFFERS).(dmaMapped := true);
    forall b | b in s'.buffers ensures b != t {
      var k :| 0 <= k < BUFFERS && s'.buffers[k] == b;
    }
  }

  lemma UnbindLoses(s: State, t: nat)
    requires Lost(s, t) && s.dmaMapped
    ensures Lost(LateUnbind(s), t)
  {
    GiveBuffersLoses(s, BUFFERS, t);
  }

  lemma LostForGood(s: State, op: Op, t: nat)
    requires Lost(s, t)
    ensures Lost(Do(s, op), t)
  {
    if s.dmaMapped {
      UnbindLoses(s, t);
    } else if op == Bind(true, true) {
      BindLoses(s, t);
    }
  }

  /** A second open while the file is open: the control mapping of the first is lost. */
  lemma {:induction false} NestedOpenLoses(s: State, ops: seq<Op>) returns (t: nat)
    requires Initial(s) && Legal(ops) && !OneFile(ops)
    ensures Lost(Run(s, ops), t)
  {
    var before, op := ops[..|ops| - 1], ops[|ops| - 1];
    if OneFile(before) {
      BalancedAlways(s, before);
      t := Run(s, before).control;
      SecondOpen(Run(s, before));
    } else {
      t := NestedOpenLoses(s, before);
      LostForGood(Run(s, before), op, t);
    }
  }

  /** The second open loses everything that was held, a bound ring included. */
  lemma SecondOpen(s: State)
    requires Balanced(s, true)
    ensures s.control in s.held && forall t :: t in s.held ==> Lost(Do(s, Open), t)
  {
  }

  /** Once every file is closed nothing is held, and no release was wrong, if and only if the file was
      never opened while it was open. */
  lemma BalancedExactly(s: State, ops: seq<Op>)
    requires Initial(s) && Legal(ops) && Files(ops) == 0
    ensures Run(s, ops).held == {} && Run(s, ops).faults == 0 <==> OneFile(ops)
  {
    if OneFile(ops) {
      BalancedAlways(s, ops);
    } else {
      var t := NestedOpenLoses(s, ops);
    }
  }

  // ---------- the driver's code ----------

  class Device {
    var held: set<nat>
    var next: nat
    var faults: nat
    var control: nat
    var ram: nat
    var fifo: nat
    var msi: nat
    var irq: nat
    const buffers: array<nat>
    var dmaMapped: bool

    ghost function View(): State
      reads this, buffers
    {
      State(held, next, faults, control, ram, fifo, msi, irq, buffers[..], dmaMapped)
    }

    /** After module load: nothing acquired, no file open. */
    constructor ()
      ensures Initial(View()) && fresh(buffers)
    {
      held, next, faults := {}, 0, 0;
      control, ram, fifo, msi, irq := 0, 0, 0, 0, 0;
      buffers := new nat[BUFFERS](_ => 0);
      dmaMapped := false;
    }

    method Acquire() returns (t: nat)
      modifies this`held, this`next
      ensures View() == Take(old(View())) && t == old(next)
    {
      t := next;
      held := held + {t};
      next := next + 1;
    }

    method GiveBack(t: nat)
      modifies this`held, this`faults
      ensures View() == Give(old(View()), t)
    {
      if t in held {
        held := held - {t};
      } else {
        faults := faults + 1;
      }
    }

    /** kyouko3_open */
    method OpenFile()
      requires View().Shape()
      modifies this
      ensures View() == Do(old(View()), Open)
    {
      control := Acquire();
      ram := Acquire();
      fifo := Acquire();
      dmaMapped := false;
    }

    /** bind_dma, given what pci_enable_msi and request_irq answer; false for a return of 0. */
    method BindDma(msiResult: int, irqResult: int) returns (ok: bool)
      requires View().Shape()
      modifies this, buffers
      ensures View() == Do(old(View()), Bind(msiResult == 0, irqResult == 0))
      ensures ok <==> !old(dmaMapped) && dmaMapped
      ensures ok <==> !old(dmaMapped) && msiResult == 0 && irqResult == 0
      ensures old(Balanced(View(), true)) && ok ==> held == View().FileHandles() + View().RingHandles()
    {
      ghost var s := View();
      if dmaMapped {
        return false;
      }
      if msiResult != 0 {
        return false;
      }
      msi := Acquire();
      if irqResult != 0 {
        GiveBack(msi);
        return false;
      }
      irq := Acquire();
      ghost var m := View();
      for i := 0 to BUFFERS
        invariant View() == TakeBuffers(m, i)
      {
        buffers[i] := Acquire();
      }
      dmaMapped := true;
      if Balanced(s, true) {
        BindTakes(s);
      }
      return true;
    }

    /** late_unbind_dma after its wait */
    method LateUnbindDma()
      requires View().Shape()
      modifies this
      ensures View() == LateUnbind(old(View()))
    {
      ghost var m := View();
      for i := 0 to BUFFERS
        invariant View() == GiveBuffers(m, i) && buffers[..] == m.buffers && irq == m.irq && msi == m.msi
      {
        GiveBack(buffers[i]);
      }
      GiveBack(irq);
      GiveBack(msi);
      dmaMapped := false;
    }

    /** on_time_unbind_dma */
    method OnTimeUnbindDma() returns (ret: int)
      requires View().Shape()
      modifies this
      ensures View() == Do(old(View()), Unbind) && ret == if old(dmaMapped) then 0 else 1
      ensures !dmaMapped && (old(Balanced(View(), true)) ==> held == View().FileHandles())
    {
      ghost var s := View();
      if !dmaMapped {
        return 1;
      }
      LateUnbindDma();
      if Balanced(s, true) {
        UnbindReturns(s);
      }
      return 0;
    }

    /** kyouko3_release */
    method ReleaseFile()
      requires View().Shape()
      modifies this
      ensures View() == Do(old(View()), Release)
    {
      if dmaMapped {
        LateUnbindDma();
      }
      GiveBack(fifo);
      GiveBack(control);
      GiveBack(ram);
    }
  }
}
