/** The greedy scheduler of SSTF/greedy-iosched.c on the values of its two queues.
    The steps are those of the code; nothing is assumed about how requests overlap. */
module Scheduler {
  import opened Sectors

  /** The contents of struct greedy_data, each queue read from its sentinel's `next` on. */
  datatype State = State(lower: seq<Request>, upper: seq<Request>, head: nat) {
    predicate Empty() { lower == [] && upper == [] }
    function Pending(): nat { |lower| + |upper| }
    function All(): seq<Request> { lower + upper }
  }

  function Last(q: seq<Request>): Request
    requires q != []
  {
    q[|q| - 1]
  }

  function Front(q: seq<Request>): seq<Request>
    requires q != []
  {
    q[..|q| - 1]
  }

  // ---------- the operations ----------

  const INITIAL := State([], [], 0)

  /** The reverse scan: step back over every request whose start is not below the new one. */
  function Insert(q: seq<Request>, r: Request): seq<Request> {
    if q == [] || r.pos > Last(q).pos then q + [r]
    else Insert(Front(q), r) + [Last(q)]
  }

  function Add(s: State, r: Request): State {
    if r.pos < s.head then s.(lower := Insert(s.lower, r)) else s.(upper := Insert(s.upper, r))
  }

  /** The comparison of the two candidates, in unsigned arithmetic. */
  predicate PicksLower(s: State)
    requires !s.Empty()
  {
    if s.lower == [] then false
    else if s.upper == [] then true
    else Sub64(s.head, Last(s.lower).pos) < Sub64(s.upper[0].pos, s.head)
  }

  function Target(s: State): Request
    requires !s.Empty()
  {
    if PicksLower(s) then Last(s.lower) else s.upper[0]
  }

  /** The state after a dispatch that found a request. */
  function Serve(s: State): (s': State)
    requires !s.Empty()
    ensures s'.Pending() == s.Pending() - 1
  {
    if PicksLower(s) then State(Front(s.lower), s.upper, Target(s).End())
    else State(s.lower, s.upper[1..], Target(s).End())
  }

  /** greedy_dispatch: the request handed to the dispatch list (None for a return of 0) and the new state. */
  function Dispatch(s: State): (Option<Request>, State) {
    if s.Empty() then (None, s) else (Some(Target(s)), Serve(s))
  }

  function Find(q: seq<Request>, r: Request): (i: nat)
    ensures i <= |q|
    ensures i < |q| ==> q[i] == r
    ensures i == |q| ==> r !in q
  {
    if q == [] then 0 else if q[0] == r then 0 else 1 + Find(q[1..], r)
  }

  function LatterIn(q: seq<Request>, r: Request): Option<Request> {
    if Find(q, r) + 1 < |q| then Some(q[Find(q, r) + 1]) else None
  }

  /** The request after `r` in its own queue. */
  function Latter(s: State, r: Request): Option<Request> {
    if r in s.lower then LatterIn(s.lower, r) else LatterIn(s.upper, r)
  }

  /** The block layer extends `r` by `next`, a request that starts where `r` ends. */
  function Absorb(r: Request, next: Request): Request {
    r.(sectors := r.sectors + next.sectors)
  }

  predicate MayMerge(s: State, r: Request, next: Request) {
    Latter(s, r) == Some(next) && r.Limit() == next.pos
  }

  function MergeAt(q: seq<Request>, i: nat): seq<Request>
    requires i + 1 < |q|
  {
    q[..i] + [Absorb(q[i], q[i + 1])] + q[i + 2..]
  }

  /** The block layer extends `r`, then greedy_merged_requests unlinks `next`. */
  function Merge(s: State, r: Request, next: Request): State
    requires MayMerge(s, r, next)
  {
    if r in s.lower then s.(lower := MergeAt(s.lower, Find(s.lower, r)))
    else s.(upper := MergeAt(s.upper, Find(s.upper, r)))
  }

  // ---------- runs ----------

  datatype Op = AddOp(r: Request) | DispatchOp | MergeOp(r: Request, next: Request)

  /** A scheduler state with the history that led to it. */
  datatype World = World(s: State, added: seq<Request>, served: seq<Request>, absorbed: seq<Request>)

  /** One call. A merge the block layer would not ask for changes nothing. */
  function Step(w: World, op: Op): World {
    match op
    case AddOp(r) => w.(s := Add(w.s, r), added := w.added + [r])
    case DispatchOp =>
      var (target, s') := Dispatch(w.s);
      w.(s := s', served := w.served + if target.None? then [] else [target.value])
    case MergeOp(r, next) =>
      if MayMerge(w.s, r, next) then w.(s := Merge(w.s, r, next), absorbed := w.absorbed + [next]) else w
  }

  function Run(ops: seq<Op>): World {
    if ops == [] then World(INITIAL, [], [], [])
    else Step(Run(ops[..|ops| - 1]), ops[|ops| - 1])
  }

  // ---------- sortedness and insertion ----------

  ghost predicate Sorted(q: seq<Request>) {
    forall i, j :: 0 <= i < j < |q| ==> q[i].pos <= q[j].pos
  }

  /** `x` put in after the first k. */
  function Splice<T>(q: seq<T>, k: nat, x: T): seq<T>
    requires k <= |q|
  {
    q[..k] + [x] + q[k..]
  }

  lemma SpliceElements<T>(q: seq<T>, k: nat, x: T)
    requires k <= |q|
    ensures var q' := Splice(q, k, x);
            && |q'| == |q| + 1
            && forall i :: 0 <= i < |q'| ==> q'[i] == (if i < k then q[i] else if i == k then x else q[i - 1])
  {
  }

  lemma {:induction false} InsertBag(q: seq<Request>, r: Request)
    ensures multiset(Insert(q, r)) == multiset(q) + multiset{r}
  {
    if q != [] && r.pos <= Last(q).pos {
      assert q == Front(q) + [Last(q)];
      InsertBag(Front(q), r);
    }
  }

  lemma SpliceSorted(q: seq<Request>, k: nat, r: Request)
    requires Sorted(q) && k <= |q|
    requires forall i :: 0 <= i < k ==> q[i].pos < r.pos
    requires forall i :: k <= i < |q| ==> r.pos <= q[i].pos
    ensures Sorted(Splice(q, k, r))
  {
    SpliceElements(q, k, r);
  }

  /** One step of the reverse scan. */
  lemma InsertStepsBack(q: seq<Request>, k: nat, r: Request)
    requires 0 < k <= |q| && r.pos <= q[k - 1].pos
    requires Insert(q, r) == Insert(q[..k], r) + q[k..]
    ensures Insert(q, r) == Insert(q[..k - 1], r) + q[k - 1..]
  {
    assert Front(q[..k]) == q[..k - 1];
  }

  /** The request lands after every smaller start and before every equal or larger one. */
  lemma InsertPlace(q: seq<Request>, r: Request) returns (k: nat)
    requires Sorted(q)
    ensures k <= |q| && Insert(q, r) == q[..k] + [r] + q[k..]
    ensures forall i :: 0 <= i < k ==> q[i].pos < r.pos
    ensures forall i :: k <= i < |q| ==> r.pos <= q[i].pos
  {
    k := |q|;
    assert q[..k] == q && q[k..] == [];
    while k > 0 && r.pos <= q[k - 1].pos
      invariant k <= |q| && Insert(q, r) == Insert(q[..k], r) + q[k..]
      invariant forall i :: k <= i < |q| ==> r.pos <= q[i].pos
    {
      InsertStepsBack(q, k, r);
      k := k - 1;
    }
  }

  /** Insertion keeps the queue sorted and adds exactly the new request. */
  lemma InsertSorted(q: seq<Request>, r: Request)
    requires Sorted(q)
    ensures Sorted(Insert(q, r))
    ensures multiset(Insert(q, r)) == multiset(q) + multiset{r}
  {
    var k := InsertPlace(q, r);
    assert Insert(q, r) == Splice(q, k, r);
    SpliceSorted(q, k, r);
    InsertBag(q, r);
  }

  // ---------- the calls on any state, whatever its requests ----------

  /** The side of an arrival is decided by the head alone, and the other side is left as it was. */
  lemma AddSides(s: State, r: Request)
    ensures var s' := Add(s, r);
            && s'.head == s.head
            && (r.pos < s.head ==> s'.upper == s.upper && multiset(s'.lower) == multiset(s.lower) + multiset{r})
            && (r.pos >= s.head ==> s'.lower == s.lower && multiset(s'.upper) == multiset(s.upper) + multiset{r})
  {
    InsertBag(s.lower, r);
    InsertBag(s.upper, r);
  }

  /** A dispatch takes the last lower or the first upper request, nothing else moves, and the head goes
      to the request's end, as a 64-bit sum. An empty queue leaves no choice. */
  lemma DispatchTakes(s: State)
    requires !s.Empty()
    ensures Dispatch(s).0.Some?
    ensures var (target, s') := Dispatch(s);
            var t := target.value;
            && s'.head == (t.pos + t.sectors) % TWO_64
            && (if PicksLower(s) then s.lower == s'.lower + [t] && s'.upper == s.upper
                else s.upper == [t] + s'.upper && s'.lower == s.lower)
    ensures s.lower == [] ==> !PicksLower(s)
    ensures s.upper == [] ==> PicksLower(s)
  {
  }

  /** `next` comes right after `r`. */
  ghost predicate Follows(q: seq<Request>, r: Request, next: Request) {
    exists i :: 0 <= i < |q| - 1 && q[i] == r && q[i + 1] == next
  }

  /** No two pending requests are the same. */
  ghost predicate AllDifferent(q: seq<Request>) {
    forall i, j :: 0 <= i < j < |q| ==> q[i] != q[j]
  }

  lemma LatterFollows(q: seq<Request>, r: Request, next: Request)
    requires AllDifferent(q)
    ensures LatterIn(q, r) == Some(next) <==> Follows(q, r, next)
  {
    var k := Find(q, r);
    if LatterIn(q, r) == Some(next) {
      assert q[k] == r && q[k + 1] == next;
    }
    if Follows(q, r, next) {
      var i :| 0 <= i < |q| - 1 && q[i] == r && q[i + 1] == next;
      assert k == i;
    }
  }

  /** Two requests may merge exactly when they touch and follow each other in one queue. */
  lemma MergeMeans(s: State, r: Request, next: Request)
    requires AllDifferent(s.All())
    ensures MayMerge(s, r, next) <==>
            r.pos + r.sectors == next.pos && (Follows(s.lower, r, next) || Follows(s.upper, r, next))
  {
    assert forall i :: 0 <= i < |s.lower| ==> s.All()[i] == s.lower[i];
    assert forall i :: 0 <= i < |s.upper| ==> s.All()[|s.lower| + i] == s.upper[i];
    LatterFollows(s.lower, r, next);
    LatterFollows(s.upper, r, next);
  }

  /** A merge puts one request, with the id and start of the first and the sectors of both, in the place
      of the two, and touches nothing else. */
  lemma MergeReplaces(s: State, r: Request, next: Request) returns (a: seq<Request>, b: seq<Request>)
    requires MayMerge(s, r, next)
    ensures var s', m := Merge(s, r, next), Request(r.id, r.pos, r.sectors + next.sectors);
            && s'.head == s.head
            && if r in s.lower then s.lower == a + [r, next] + b && s'.lower == a + [m] + b && s'.upper == s.upper
               else s.upper == a + [r, next] + b && s'.upper == a + [m] + b && s'.lower == s.lower
  {
    var q := if r in s.lower then s.lower else s.upper;
    a, b := q[..Find(q, r)], q[Find(q, r) + 2..];
    assert q == a + [r, next] + b;
  }

  // ---------- overlapping requests ----------

  /** What survives any mixture of overlapping requests below 2^63: both queues sorted and no
      lower start above the head. Upper starts may well fall behind the head. */
  ghost predicate Safe(s: State) {
    && Sorted(s.lower) && Sorted(s.upper)
    && (forall r :: r in s.lower || r in s.upper ==> r.InRange())
    && (forall r :: r in s.lower ==> r.pos <= s.head)
    && s.head < TWO_63
  }

  /** Neither difference misleads the comparison: the lower one is exact, and an upper start
      behind the head looks farther than any lower start. */
  lemma SafeComparison(s: State)
    requires Safe(s) && s.lower != [] && s.upper != []
    ensures Sub64(s.head, Last(s.lower).pos) == s.head - Last(s.lower).pos
    ensures PicksLower(s) <==>
              s.upper[0].pos < s.head || s.head - Last(s.lower).pos < s.upper[0].pos - s.head
  {
    assert Last(s.lower) in s.lower && s.upper[0] in s.upper;
    Sub64Exact(s.head, Last(s.lower).pos);
    Sub64Exact(s.upper[0].pos, s.head);
  }

  /** Without the 2^63 bound: for any 64-bit sectors, the comparison is that of the distances where
      each difference that wraps is 2^64 too large. */
  lemma WrapLimit(head: nat, lo: nat, up: nat)
    requires head < TWO_64 && lo < TWO_64 && up < TWO_64
    ensures Sub64(head, lo) < Sub64(up, head) <==>
            2 * head + (if lo > head then TWO_64 else 0) < lo + up + (if up < head then TWO_64 else 0)
  {
    Sub64Exact(head, lo);
    Sub64Exact(up, head);
  }

  /** So for any 64-bit sectors the choice between two candidates is this. */
  lemma ChoiceExact(s: State)
    requires s.lower != [] && s.upper != []
    requires s.head < TWO_64 && Last(s.lower).pos < TWO_64 && s.upper[0].pos < TWO_64
    ensures var lo, up := Last(s.lower).pos, s.upper[0].pos;
            PicksLower(s) <==>
            2 * s.head + (if lo > s.head then TWO_64 else 0) < lo + up + (if up < s.head then TWO_64 else 0)
  {
    WrapLimit(s.head, Last(s.lower).pos, s.upper[0].pos);
  }

  lemma AddSafe(s: State, r: Request)
    requires Safe(s) && r.InRange()
    ensures Safe(Add(s, r))
  {
    var q := if r.pos < s.head then s.lower else s.upper;
    InsertSorted(q, r);
    forall x | x in Insert(q, r) ensures x in q || x == r {
      assert x in multiset(Insert(q, r));
    }
  }

  lemma ServeSafe(s: State)
    requires Safe(s) && !s.Empty()
    ensures Safe(Serve(s))
    ensures !PicksLower(s) && s.lower != [] ==> s.head <= Target(s).pos
  {
    if s.lower != [] && s.upper != [] {
      SafeComparison(s);
    }
    var t := Target(s);
    assert t in s.lower || t in s.upper;
    assert t.End() == t.Limit();
    if PicksLower(s) {
      forall r | r in Front(s.lower) ensures r in s.lower && r.pos <= t.pos {
        var i :| 0 <= i < |Front(s.lower)| && Front(s.lower)[i] == r;
      }
    }
  }

  /** A merge in one queue, element by element. */
  lemma MergeAtElements(q: seq<Request>, i: nat)
    requires i + 1 < |q|
    ensures var m := MergeAt(q, i);
            && |m| == |q| - 1
            && (forall j :: 0 <= j < i ==> m[j] == q[j])
            && m[i] == Absorb(q[i], q[i + 1])
            && (forall j :: i < j < |m| ==> m[j] == q[j + 1])
  {
  }

  lemma MergeAtMembers(q: seq<Request>, i: nat)
    requires i + 1 < |q|
    ensures forall r :: r in MergeAt(q, i) ==> r in q || r == Absorb(q[i], q[i + 1])
  {
    forall r | r in MergeAt(q, i) ensures r in q || r == Absorb(q[i], q[i + 1]) {
      var j :| 0 <= j < |MergeAt(q, i)| && MergeAt(q, i)[j] == r;
      MergeAtElements(q, i);
    }
  }

  lemma MergeAtSorted(q: seq<Request>, i: nat)
    requires Sorted(q) && i + 1 < |q|
    ensures Sorted(MergeAt(q, i))
  {
    MergeAtElements(q, i);
  }

  lemma MergeSafe(s: State, r: Request, next: Request)
    requires Safe(s) && MayMerge(s, r, next)
    ensures Safe(Merge(s, r, next))
  {
    var q := if r in s.lower then s.lower else s.upper;
    MergeAtSorted(q, Find(q, r));
    MergeAtMembers(q, Find(q, r));
    assert r in q && next in q;
    assert Absorb(r, next).Limit() == next.Limit();
  }

  lemma StepSafe(w: World, op: Op)
    requires Safe(w.s) && (op.AddOp? ==> op.r.InRange())
    ensures Safe(Step(w, op).s)
  {
    match op
    case AddOp(r) => AddSafe(w.s, r);
    case DispatchOp => if !w.s.Empty() { ServeSafe(w.s); }
    case MergeOp(r, next) =>
      if MayMerge(w.s, r, next) { MergeSafe(w.s, r, next); }
  }

  /** Every reachable state is safe, and a dispatch chooses an upper request behind the head only
      when the lower queue is empty. */
  lemma {:induction false} OverlapSafety(ops: seq<Op>)
    requires forall op :: op in ops && op.AddOp? ==> op.r.InRange()
    ensures Safe(Run(ops).s)
    ensures var s := Run(ops).s;
            !s.Empty() && Target(s).pos < s.head && !PicksLower(s) ==> s.lower == []
    ensures var s := Run(ops).s;
            s.lower != [] && s.upper != [] ==>
              && Sub64(s.head, Last(s.lower).pos) == s.head - Last(s.lower).pos
              && (PicksLower(s) <==>
                  s.upper[0].pos < s.head || s.head - Last(s.lower).pos < s.upper[0].pos - s.head)
  {
    if ops != [] {
      OverlapSafety(ops[..|ops| - 1]);
      StepSafe(Run(ops[..|ops| - 1]), ops[|ops| - 1]);
    }
    var s := Run(ops).s;
    if !s.Empty() {
      ServeSafe(s);
    }
    if s.lower != [] && s.upper != [] {
      SafeComparison(s);
    }
  }

  lemma LowerFirst(s: State, r: Request)
    requires Safe(s) && r in s.lower
    ensures r.pos <= Target(s).pos
  {
    ServeSafe(s);
    var i :| 0 <= i < |s.lower| && s.lower[i] == r;
    assert r.pos <= Last(s.lower).pos && r.pos <= s.head;
  }

  /** While a request waits below the head none with a smaller start is served. */
  lemma NoneOvertaken(ops: seq<Op>, r: Request)
    requires forall op :: op in ops && op.AddOp? ==> op.r.InRange()
    requires r in Run(ops).s.lower
    ensures r.pos <= Target(Run(ops).s).pos
  {
    OverlapSafety(ops);
    LowerFirst(Run(ops).s, r);
  }

  /** The bound is needed: with one request that ends at 2^63 exactly, and all starting at sector 0, a
      dispatch passes over a waiting lower request for an upper one behind the head. */
  lemma BoundNeeded()
    ensures var big := Request(1, 0, TWO_63);
            var ops := [AddOp(Request(0, 0, 1)), AddOp(big), DispatchOp, AddOp(Request(2, 0, 1))];
            var s := Run(ops).s;
            && (forall op :: op in ops && op.AddOp? ==> op.r.Limit() <= TWO_63)
            && s.lower != [] && s.upper != [] && !PicksLower(s) && Target(s).pos < s.head
  {
    var a, big, c := AddOp(Request(0, 0, 1)), AddOp(Request(1, 0, TWO_63)), AddOp(Request(2, 0, 1));
    var ops := [a, big, DispatchOp, c];
    assert ops[..3] == [a, big, DispatchOp] && [a, big, DispatchOp][..2] == [a, big] && [a, big][..1] == [a];
    assert Run([a]).s == State([], [a.r], 0) by {
      assert [a][..0] == [];
    }
    assert Insert([a.r], big.r) == [big.r, a.r] by {
      assert Front([a.r]) == [];
    }
    assert Run([a, big]).s == State([], [big.r, a.r], 0);
    assert Run([a, big, DispatchOp]).s == State([], [a.r], TWO_63);
    assert Run(ops).s == State([c.r], [a.r], TWO_63);
  }

  // ---------- equal starts ----------

  /** Ids are arrival stamps: every request carries a larger one than all before it. */
  ghost predicate Stamped(ops: seq<Op>) {
    ops != [] ==>
      var before := ops[..|ops| - 1];
      var op := ops[|ops| - 1];
      Stamped(before) && (op.AddOp? ==> forall r :: r in Run(before).added ==> r.id < op.r.id)
  }

  /** Sorted by start, newest first among equal starts. */
  ghost predicate NewestFirst(q: seq<Request>) {
    forall i, j :: 0 <= i < j < |q| ==> q[i].pos < q[j].pos || (q[i].pos == q[j].pos && q[i].id > q[j].id)
  }

  ghost predicate Known(q: seq<Request>, added: seq<Request>) {
    forall r :: r in q ==> exists a :: a in added && a.id == r.id
  }

  ghost predicate Ordered(w: World) {
    && NewestFirst(w.s.lower) && NewestFirst(w.s.upper)
    && Known(w.s.lower, w.added) && Known(w.s.upper, w.added)
  }

  lemma KnownLonger(q: seq<Request>, added: seq<Request>, r: Request)
    requires Known(q, added)
    ensures Known(q, added + [r])
  {
    forall x | x in q ensures exists a :: a in added + [r] && a.id == x.id {
      var a :| a in added && a.id == x.id;
      assert a in added + [r];
    }
  }

  lemma SpliceNewest(q: seq<Request>, k: nat, r: Request)
    requires NewestFirst(q) && k <= |q| && forall i :: 0 <= i < |q| ==> q[i].id < r.id
    requires forall i :: 0 <= i < k ==> q[i].pos < r.pos
    requires forall i :: k <= i < |q| ==> r.pos <= q[i].pos
    ensures NewestFirst(Splice(q, k, r))
  {
    SpliceElements(q, k, r);
  }

  lemma InsertNewest(q: seq<Request>, r: Request, added: seq<Request>)
    requires NewestFirst(q) && Known(q, added) && forall a :: a in added ==> a.id < r.id
    ensures NewestFirst(Insert(q, r)) && Known(Insert(q, r), added + [r])
  {
    var k := InsertPlace(q, r);
    assert Insert(q, r) == Splice(q, k, r);
    forall i | 0 <= i < |q| ensures q[i].id < r.id {
      assert q[i] in q;
    }
    SpliceNewest(q, k, r);
    KnownLonger(q, added, r);
    assert r in added + [r];
  }

  lemma MergeAtNewest(q: seq<Request>, i: nat, added: seq<Request>)
    requires NewestFirst(q) && Known(q, added) && i + 1 < |q|
    ensures NewestFirst(MergeAt(q, i)) && Known(MergeAt(q, i), added)
  {
    MergeAtElements(q, i);
    MergeAtMembers(q, i);
    assert q[i] in q;
  }

  lemma ServeOrdered(w: World)
    requires Ordered(w) && !w.s.Empty()
    ensures Ordered(Step(w, DispatchOp))
  {
    assert forall x :: x in Serve(w.s).lower ==> x in w.s.lower;
    assert forall x :: x in Serve(w.s).upper ==> x in w.s.upper;
  }

  lemma StepOrdered(w: World, op: Op)
    requires Ordered(w) && (op.AddOp? ==> forall a :: a in w.added ==> a.id < op.r.id)
    ensures Ordered(Step(w, op))
  {
    match op
    case AddOp(r) =>
      InsertNewest(if r.pos < w.s.head then w.s.lower else w.s.upper, r, w.added);
      KnownLonger(w.s.lower, w.added, r);
      KnownLonger(w.s.upper, w.added, r);
    case DispatchOp => if !w.s.Empty() { ServeOrdered(w); }
    case MergeOp(r, next) =>
      if MayMerge(w.s, r, next) {
        var q := if r in w.s.lower then w.s.lower else w.s.upper;
        MergeAtNewest(q, Find(q, r), w.added);
      }
  }

  lemma {:induction false} RunOrdered(ops: seq<Op>)
    requires Stamped(ops)
    ensures Ordered(Run(ops))
  {
    if ops != [] {
      RunOrdered(ops[..|ops| - 1]);
      StepOrdered(Run(ops[..|ops| - 1]), ops[|ops| - 1]);
    }
  }

  /** Among requests of one queue that share a start, the lower queue gives up the oldest and the
      upper queue the newest. */
  lemma EqualStarts(ops: seq<Op>)
    requires Stamped(ops) && !Run(ops).s.Empty()
    ensures var s := Run(ops).s;
            var t := Target(s);
            if PicksLower(s) then forall r :: r in s.lower && r.pos == t.pos ==> t.id <= r.id
            else forall r :: r in s.upper && r.pos == t.pos ==> r.id <= t.id
  {
    RunOrdered(ops);
  }

  // ---------- the side of a request ----------

  function Below(s: State, r: Request): set<nat> {
    if r.pos < s.head then {r.id} else {}
  }

  /** The ids of the requests that started below the head when they arrived. */
  ghost function BelowIds(ops: seq<Op>): set<nat> {
    if ops == [] then {}
    else
      var before, op := ops[..|ops| - 1], ops[|ops| - 1];
      if op.AddOp? then BelowIds(before) + Below(Run(before).s, op.r) else BelowIds(before)
  }

  /** The lower queue holds requests that arrived below the head, the upper queue the others. */
  ghost predicate Sided(w: World, below: set<nat>) {
    && (forall r :: r in w.s.lower ==> r.id in below)
    && (forall r :: r in w.s.upper ==> r.id !in below)
    && (forall id :: id in below ==> exists a :: a in w.added && a.id == id)
  }

  /** Of requests in `below` that share a start, `x` is older than `y`. */
  predicate InTurn(x: Request, y: Request, below: set<nat>) {
    x.id in below && y.id in below && x.pos == y.pos ==> x.id < y.id
  }

  /** Those served were served in turn, and before those still waiting below the head. */
  ghost predicate OldestFirst(w: World, below: set<nat>) {
    && (forall i, j :: 0 <= i < j < |w.served| ==> InTurn(w.served[i], w.served[j], below))
    && (forall x, y :: x in w.served && y in w.s.lower ==> InTurn(x, y, below))
    && Known(w.served, w.added)
  }

  lemma InsertIn(q: seq<Request>, r: Request, x: Request)
    ensures x in Insert(q, r) <==> x in q || x == r
  {
    InsertBag(q, r);
    assert x in Insert(q, r) <==> x in multiset(Insert(q, r));
  }

  lemma AddSided(w: World, r: Request, below: set<nat>)
    requires Sided(w, below) && Ordered(w) && forall a :: a in w.added ==> a.id < r.id
    ensures Sided(Step(w, AddOp(r)), below + Below(w.s, r))
  {
    var w', below' := Step(w, AddOp(r)), below + Below(w.s, r);
    forall x | x in w'.s.lower ensures x.id in below' {
      InsertIn(w.s.lower, r, x);
    }
    forall x | x in w'.s.upper ensures x.id !in below' {
      InsertIn(w.s.upper, r, x);
    }
    forall id | id in below' ensures exists a :: a in w'.added && a.id == id {
      if id in below {
        var a :| a in w.added && a.id == id;
        assert a in w'.added;
      } else {
        assert r in w'.added;
      }
    }
  }

  lemma AddOldest(w: World, r: Request, below: set<nat>)
    requires OldestFirst(w, below) && forall a :: a in w.added ==> a.id < r.id
    ensures OldestFirst(Step(w, AddOp(r)), below + Below(w.s, r))
  {
    var w', below' := Step(w, AddOp(r)), below + Below(w.s, r);
    KnownLonger(w.served, w.added, r);
    assert forall x :: x in w.served ==> x.id < r.id;
    forall i, j | 0 <= i < j < |w.served| ensures InTurn(w.served[i], w.served[j], below') {
      assert w.served[i] in w.served && w.served[j] in w.served;
      assert InTurn(w.served[i], w.served[j], below);
    }
    forall x, y | x in w.served && y in w'.s.lower ensures InTurn(x, y, below') {
      InsertIn(w.s.lower, r, y);
      assert y in w.s.lower ==> InTurn(x, y, below);
    }
  }

  lemma DispatchSided(w: World, below: set<nat>)
    requires Sided(w, below) && !w.s.Empty()
    ensures Sided(Step(w, DispatchOp), below)
  {
    DispatchTakes(w.s);
  }

  /** Those that wait behind the target, or in the lower queue while an upper request goes, keep their turn. */
  lemma TargetInTurn(w: World, below: set<nat>, x: Request)
    requires Sided(w, below) && OldestFirst(w, below) && Ordered(w) && !w.s.Empty()
    ensures x in w.served ==> InTurn(x, Target(w.s), below)
    ensures x in Serve(w.s).lower ==> InTurn(Target(w.s), x, below) && x in w.s.lower
  {
    DispatchTakes(w.s);
    var t := Target(w.s);
    assert t in w.s.lower || t in w.s.upper;
    if PicksLower(w.s) && x in Serve(w.s).lower {
      var i :| 0 <= i < |Serve(w.s).lower| && Serve(w.s).lower[i] == x;
      assert w.s.lower[i] == x && w.s.lower[|w.s.lower| - 1] == t;
    }
  }

  lemma DispatchOldest(w: World, below: set<nat>)
    requires Sided(w, below) && OldestFirst(w, below) && Ordered(w) && !w.s.Empty()
    ensures OldestFirst(Step(w, DispatchOp), below)
  {
    var w', t := Step(w, DispatchOp), Target(w.s);
    var n := |w.served|;
    assert w'.served == w.served + [t];
    forall i, j | 0 <= i < j < n + 1 ensures InTurn(w'.served[i], w'.served[j], below) {
      TargetInTurn(w, below, w'.served[i]);
      assert w'.served[i] == w.served[i] && w.served[i] in w.served;
    }
    forall x, y | x in w'.served && y in w'.s.lower ensures InTurn(x, y, below) {
      TargetInTurn(w, below, y);
    }
    TargetKnown(w);
  }

  lemma TargetKnown(w: World)
    requires Ordered(w) && Known(w.served, w.added) && !w.s.Empty()
    ensures Known(w.served + [Target(w.s)], w.added)
  {
    DispatchTakes(w.s);
    assert Target(w.s) in w.s.lower || Target(w.s) in w.s.upper;
  }

  lemma MergeSided(w: World, r: Request, next: Request, below: set<nat>)
    requires Sided(w, below) && OldestFirst(w, below) && MayMerge(w.s, r, next)
    ensures Sided(Step(w, MergeOp(r, next)), below) && OldestFirst(Step(w, MergeOp(r, next)), below)
  {
    var a, b := MergeReplaces(w.s, r, next);
  }

  lemma StepSided(w: World, op: Op, below: set<nat>)
    requires Sided(w, below) && OldestFirst(w, below) && Ordered(w) && !op.AddOp?
    ensures Sided(Step(w, op), below) && OldestFirst(Step(w, op), below)
  {
    if op.DispatchOp? && !w.s.Empty() {
      DispatchSided(w, below);
      DispatchOldest(w, below);
    } else if op.MergeOp? && MayMerge(w.s, op.r, op.next) {
      MergeSided(w, op.r, op.next, below);
    } else {
      assert Step(w, op) == w by {
        assert w.served + [] == w.served;
      }
    }
  }

  lemma {:induction false} SidesAlways(ops: seq<Op>)
    requires Stamped(ops)
    ensures Sided(Run(ops), BelowIds(ops)) && OldestFirst(Run(ops), BelowIds(ops))
  {
    if ops != [] {
      var before, op := ops[..|ops| - 1], ops[|ops| - 1];
      SidesAlways(before);
      RunOrdered(before);
      if op.AddOp? {
        AddSided(Run(before), op.r, BelowIds(before));
        AddOldest(Run(before), op.r, BelowIds(before));
      } else {
        StepSided(Run(before), op, BelowIds(before));
      }
    }
  }

  /** Over any run, overlapping or not: as long as a request is pending it is in the lower queue if it
      started below the head when it arrived, and in the upper queue if not. */
  lemma SideOfArrival(ops: seq<Op>, r: Request)
    requires Stamped(ops) && (r in Run(ops).s.lower || r in Run(ops).s.upper)
    ensures r in Run(ops).s.lower <==> r.id in BelowIds(ops)
    ensures r in Run(ops).s.upper <==> r.id !in BelowIds(ops)
  {
    SidesAlways(ops);
  }

  /** And of the requests that arrived below the head those with one start are served in the order they
      arrived. */
  lemma BelowOldestFirst(ops: seq<Op>, i: nat, j: nat)
    requires Stamped(ops) && i < j < |Run(ops).served|
    requires Run(ops).served[i].id in BelowIds(ops) && Run(ops).served[j].id in BelowIds(ops)
    requires Run(ops).served[i].pos == Run(ops).served[j].pos
    ensures Run(ops).served[i].id < Run(ops).served[j].id
  {
    SidesAlways(ops);
    assert InTurn(Run(ops).served[i], Run(ops).served[j], BelowIds(ops));
  }

  // ---------- conservation ----------

  /** The total of f over a queue. */
  ghost function Sum(q: seq<Request>, f: Request -> nat): nat {
    if q == [] then 0 else Sum(q[..|q| - 1], f) + f(q[|q| - 1])
  }

  /** Counts the requests with a given id. */
  ghost function HasId(id: nat): Request -> nat {
    (r: Request) => if r.id == id then 1 else 0
  }

  /** Counts the requests that transfer a given sector. */
  ghost function Covers(sector: nat): Request -> nat {
    (r: Request) => if r.pos <= sector < r.Limit() then 1 else 0
  }

  lemma {:induction false} SumConcat(a: seq<Request>, b: seq<Request>, f: Request -> nat)
    ensures Sum(a + b, f) == Sum(a, f) + Sum(b, f)
  {
    if b == [] {
      assert a + b == a;
    } else {
      assert (a + b)[..|a + b| - 1] == a + b[..|b| - 1];
      SumConcat(a, b[..|b| - 1], f);
    }
  }

  lemma SumOne(r: Request, f: Request -> nat)
    ensures Sum([r], f) == f(r)
  {
    assert [r][..0] == [];
  }

  lemma SumSnoc(q: seq<Request>, r: Request, f: Request -> nat)
    ensures Sum(q + [r], f) == Sum(q, f) + f(r)
  {
    assert (q + [r])[..|q|] == q;
  }

  lemma {:induction false} SumInsert(q: seq<Request>, r: Request, f: Request -> nat)
    ensures Sum(Insert(q, r), f) == Sum(q, f) + f(r)
  {
    if q == [] || r.pos > Last(q).pos {
      SumSnoc(q, r, f);
    } else {
      SumInsert(Front(q), r, f);
      SumSnoc(Insert(Front(q), r), Last(q), f);
    }
  }

  lemma SumSplit(q: seq<Request>, i: nat, f: Request -> nat)
    requires i < |q|
    ensures Sum(q, f) == Sum(q[..i], f) + f(q[i]) + Sum(q[i + 1..], f)
  {
    assert q == q[..i] + [q[i]] + q[i + 1..];
    SumConcat(q[..i] + [q[i]], q[i + 1..], f);
    SumSnoc(q[..i], q[i], f);
  }

  lemma SumMergeAt(q: seq<Request>, i: nat, f: Request -> nat)
    requires i + 1 < |q|
    ensures Sum(q, f) + f(Absorb(q[i], q[i + 1])) == Sum(MergeAt(q, i), f) + f(q[i]) + f(q[i + 1])
  {
    var m := MergeAt(q, i);
    SumSplit(q, i, f);
    SumSplit(q[i + 1..], 0, f);
    SumSplit(m, i, f);
    assert q[i + 1..][..0] == [] && q[i + 1..][1..] == q[i + 2..];
    assert m[..i] == q[..i] && m[i + 1..] == q[i + 2..];
  }

  lemma SumServe(s: State, f: Request -> nat)
    requires !s.Empty()
    ensures Sum(s.lower, f) + Sum(s.upper, f) == Sum(Serve(s).lower, f) + Sum(Serve(s).upper, f) + f(Target(s))
  {
    if !PicksLower(s) {
      assert s.upper == [s.upper[0]] + s.upper[1..];
      SumConcat([s.upper[0]], s.upper[1..], f);
      SumOne(s.upper[0], f);
    }
  }

  ghost function Queued(w: World, f: Request -> nat): nat {
    Sum(w.s.lower, f) + Sum(w.s.upper, f) + Sum(w.served, f)
  }

  /** One call keeps the accounts: an arrival is booked once, a dispatch moves a request to the
      served ones, and a merge turns two requests into one that covers both. */
  lemma StepConserves(w: World, op: Op, f: Request -> nat)
    ensures var w' := Step(w, op);
            match op
            case AddOp(r) => Queued(w', f) == Queued(w, f) + f(r)
            case DispatchOp => Queued(w', f) == Queued(w, f)
            case MergeOp(r, next) =>
              if MayMerge(w.s, r, next)
              then Queued(w', f) + f(r) + f(next) == Queued(w, f) + f(Absorb(r, next))
              else w' == w
  {
    match op
    case AddOp(r) =>
      SumInsert(w.s.lower, r, f);
      SumInsert(w.s.upper, r, f);
    case DispatchOp =>
      if w.s.Empty() {
        assert w.served + [] == w.served;
      } else {
        SumServe(w.s, f);
        SumSnoc(w.served, Target(w.s), f);
      }
    case MergeOp(r, next) =>
      if MayMerge(w.s, r, next) {
        if r in w.s.lower {
          SumMergeAt(w.s.lower, Find(w.s.lower, r), f);
        } else {
          SumMergeAt(w.s.upper, Find(w.s.upper, r), f);
        }
      }
  }

  ghost predicate IdsBalance(w: World, id: nat) {
    Sum(w.added, HasId(id)) == Queued(w, HasId(id)) + Sum(w.absorbed, HasId(id))
  }

  ghost predicate SectorsBalance(w: World, sector: nat) {
    Sum(w.added, Covers(sector)) == Queued(w, Covers(sector))
  }

  /** What a merge does to the two accounts. */
  lemma AbsorbCounts(r: Request, next: Request, id: nat, sector: nat)
    requires r.Limit() == next.pos
    ensures HasId(id)(Absorb(r, next)) == HasId(id)(r)
    ensures Covers(sector)(Absorb(r, next)) == Covers(sector)(r) + Covers(sector)(next)
  {
  }

  lemma StepIds(w: World, op: Op, id: nat)
    requires IdsBalance(w, id)
    ensures IdsBalance(Step(w, op), id)
  {
    StepConserves(w, op, HasId(id));
    match op
    case AddOp(r) => SumSnoc(w.added, r, HasId(id));
    case DispatchOp =>
    case MergeOp(r, next) =>
      if MayMerge(w.s, r, next) {
        SumSnoc(w.absorbed, next, HasId(id));
        AbsorbCounts(r, next, id, 0);
      }
  }

  lemma StepSectors(w: World, op: Op, sector: nat)
    requires SectorsBalance(w, sector)
    ensures SectorsBalance(Step(w, op), sector)
  {
    StepConserves(w, op, Covers(sector));
    match op
    case AddOp(r) => SumSnoc(w.added, r, Covers(sector));
    case DispatchOp =>
    case MergeOp(r, next) =>
      if MayMerge(w.s, r, next) { AbsorbCounts(r, next, 0, sector); }
  }

  /** Over any run, overlapping or not: every id is added as often as it is pending, served or
      absorbed, and every sector is requested as often as it is pending or served. */
  lemma {:induction false} Conservation(ops: seq<Op>, id: nat, sector: nat)
    ensures IdsBalance(Run(ops), id) && SectorsBalance(Run(ops), sector)
  {
    if ops != [] {
      Conservation(ops[..|ops| - 1], id, sector);
      StepIds(Run(ops[..|ops| - 1]), ops[|ops| - 1], id);
      StepSectors(Run(ops[..|ops| - 1]), ops[|ops| - 1], sector);
    }
  }

  // ---------- draining ----------

  /** The state after `k` dispatches, with no arrival between them. */
  function After(s: State, k: nat): (s': State)
    requires k <= s.Pending()
    ensures s'.Pending() == s.Pending() - k
  {
    if k == 0 then s else Serve(After(s, k - 1))
  }

  /** The requests those dispatches serve, in order. */
  function Served(s: State, k: nat): (rs: seq<Request>)
    requires k <= s.Pending()
    ensures |rs| == k
  {
    if k == 0 then [] else Served(s, k - 1) + [Target(After(s, k - 1))]
  }

  /** A dispatch returns 0 exactly when both queues are empty, which is what greedy_exit_queue
      asserts; calling it until then takes one success per pending request. */
  lemma DrainComplete(s: State, k: nat)
    requires k <= s.Pending()
    ensures Dispatch(After(s, k)).0.None? <==> k == s.Pending()
    ensures k == s.Pending() ==> After(s, k).lower == [] && After(s, k).upper == []
  {
  }

  lemma ServeParts(s: State)
    requires !s.Empty()
    ensures s.All() == if PicksLower(s) then Front(s.lower) + [Target(s)] + s.upper
                       else s.lower + [Target(s)] + s.upper[1..]
  {
  }

  lemma ServeConserves(s: State)
    requires !s.Empty()
    ensures multiset(s.All()) == multiset(Serve(s).All()) + multiset{Target(s)}
  {
    ServeParts(s);
  }

  /** Draining serves every pending request exactly once. */
  lemma {:induction false} DrainConserves(s: State, k: nat)
    requires k <= s.Pending()
    ensures multiset(s.All()) == multiset(After(s, k).All()) + multiset(Served(s, k))
  {
    if k > 0 {
      DrainConserves(s, k - 1);
      var m, rs := After(s, k - 1), Served(s, k - 1);
      ServeConserves(m);
      BagStep(s.All(), m.All(), Serve(m).All(), rs, Target(m));
    }
  }

  lemma BagStep<T>(all: seq<T>, before: seq<T>, after: seq<T>, rs: seq<T>, t: T)
    requires multiset(all) == multiset(before) + multiset(rs)
    requires multiset(before) == multiset(after) + multiset{t}
    ensures multiset(all) == multiset(after) + multiset(rs + [t])
  {
  }
}
