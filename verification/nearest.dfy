/** Shortest seek first, stated naively over the set of pending requests, and the proof that the
    two sorted queues implement it whenever arrivals do not overlap what is pending. */
module NearestFirst {
  import opened Sectors
  import opened Scheduler

  // ---------- the naive scheduler ----------

  /** `r` is no farther from the head than `q`; at equal distance the one above the head wins. */
  predicate AsNear(h: nat, r: Request, q: Request) {
    || Distance(h, r.pos) < Distance(h, q.pos)
    || (Distance(h, r.pos) == Distance(h, q.pos) && (h <= r.pos || q.pos < h))
  }

  ghost predicate IsNearest(p: set<Request>, h: nat, r: Request) {
    r in p && forall q :: q in p ==> AsNear(h, r, q)
  }

  lemma {:induction false} NearestExists(p: set<Request>, h: nat)
    requires p != {}
    ensures exists r :: IsNearest(p, h, r)
  {
    var x :| x in p;
    if p == {x} {
      assert IsNearest(p, h, x);
    } else {
      assert p == (p - {x}) + {x};
      NearestExists(p - {x}, h);
      var r :| IsNearest(p - {x}, h, r);
      assert forall q :: q in p ==> q == x || q in p - {x};
      assert IsNearest(p, h, if AsNear(h, r, x) then r else x);
    }
  }

  ghost function Nearest(p: set<Request>, h: nat): (r: Request)
    requires p != {}
    ensures IsNearest(p, h, r)
  {
    NearestExists(p, h);
    var r :| IsNearest(p, h, r);
    r
  }

  datatype Naive = Naive(pending: set<Request>, head: nat, served: seq<Request>)

  /** Two pending requests that touch and lie on the same side of the head. */
  predicate Adjoining(n: Naive, r: Request, next: Request) {
    r in n.pending && next in n.pending && r.Limit() == next.pos && (r.pos < n.head <==> next.pos < n.head)
  }

  ghost function NaiveStep(n: Naive, op: Op): Naive {
    match op
    case AddOp(r) => n.(pending := n.pending + {r})
    case DispatchOp =>
      if n.pending == {} then n
      else
        var r := Nearest(n.pending, n.head);
        Naive(n.pending - {r}, r.Limit(), n.served + [r])
    case MergeOp(r, next) =>
      if Adjoining(n, r, next) then n.(pending := n.pending - {r, next} + {Absorb(r, next)}) else n
  }

  ghost function NaiveRun(ops: seq<Op>): Naive {
    if ops == [] then Naive({}, 0, [])
    else NaiveStep(NaiveRun(ops[..|ops| - 1]), ops[|ops| - 1])
  }

  // ---------- the abstraction ----------

  ghost function Members(q: seq<Request>): set<Request> {
    set r | r in q
  }

  ghost function Abs(w: World): Naive {
    Naive(Members(w.s.All()), w.s.head, w.served)
  }

  predicate Disjoint(r: Request, q: Request) {
    r.Limit() <= q.pos || q.Limit() <= r.pos
  }

  /** `r` can arrive beside the requests in `p`. */
  predicate Fits(p: set<Request>, r: Request) {
    0 < r.sectors && r.Addressable() && forall q :: q in p ==> Disjoint(r, q)
  }

  /** Every arrival is non-empty, addressable and disjoint from what is pending when it comes. */
  ghost predicate DisjointArrivals(ops: seq<Op>) {
    ops != [] ==>
      var before := ops[..|ops| - 1];
      DisjointArrivals(before) && (ops[|ops| - 1].AddOp? ==> Fits(NaiveRun(before).pending, ops[|ops| - 1].r))
  }

  /** Non-empty requests, each ending before the next one starts. */
  ghost predicate Ascending(c: seq<Request>) {
    && (forall i :: 0 <= i < |c| ==> 0 < c[i].sectors && c[i].Addressable())
    && (forall i, j :: 0 <= i < j < |c| ==> c[i].Limit() <= c[j].pos)
  }

  /** lower ++ upper is one ascending list, cut at the head. */
  ghost predicate Cut(s: State) {
    && Ascending(s.All())
    && (forall i :: 0 <= i < |s.lower| ==> s.lower[i].pos < s.head)
    && (forall i :: 0 <= i < |s.upper| ==> s.head <= s.upper[i].pos)
    && s.head < TWO_64
  }

  ghost predicate Below(a: seq<Request>, b: seq<Request>) {
    forall x, y :: x in a && y in b ==> x.Limit() <= y.pos
  }

  lemma AscendingJoin(a: seq<Request>, b: seq<Request>)
    requires Ascending(a) && Ascending(b) && Below(a, b)
    ensures Ascending(a + b)
  {
    var c := a + b;
    forall i, j | 0 <= i < j < |c| ensures c[i].Limit() <= c[j].pos {
      if i < |a| <= j {
        assert a[i] in a && b[j - |a|] in b;
      }
    }
  }

  lemma AscendingSplit(a: seq<Request>, b: seq<Request>)
    requires Ascending(a + b)
    ensures Ascending(a) && Ascending(b) && Below(a, b)
  {
    var c := a + b;
    assert forall i :: 0 <= i < |a| ==> c[i] == a[i];
    assert forall i :: 0 <= i < |b| ==> c[|a| + i] == b[i];
  }

  lemma AscendingConcat(a: seq<Request>, b: seq<Request>)
    ensures Ascending(a + b) <==> Ascending(a) && Ascending(b) && Below(a, b)
  {
    if Ascending(a + b) {
      AscendingSplit(a, b);
    } else if Ascending(a) && Ascending(b) && Below(a, b) {
      AscendingJoin(a, b);
    }
  }

  lemma CutParts(s: State)
    requires Cut(s)
    ensures Ascending(s.lower) && Ascending(s.upper) && Below(s.lower, s.upper)
    ensures Sorted(s.lower) && Sorted(s.upper)
  {
    AscendingConcat(s.lower, s.upper);
  }

  /** At a cut neither difference wraps, so the comparison is that of the distances. */
  lemma CutComparison(s: State)
    requires Cut(s) && s.lower != [] && s.upper != []
    ensures Last(s.lower).pos < s.head <= s.upper[0].pos
    ensures PicksLower(s) <==> s.head - Last(s.lower).pos < s.upper[0].pos - s.head
  {
    CutParts(s);
    Sub64Exact(s.head, Last(s.lower).pos);
    Sub64Exact(s.upper[0].pos, s.head);
  }

  /** Different members of an ascending list start at different sectors. */
  lemma AscendingDistinct(c: seq<Request>, x: Request, y: Request)
    requires Ascending(c) && x in c && y in c && x.pos == y.pos
    ensures x == y
  {
    var i :| 0 <= i < |c| && c[i] == x;
    var j :| 0 <= j < |c| && c[j] == y;
  }

  // ---------- each call keeps the cut and simulates the naive step ----------

  lemma InsertMembers(a: seq<Request>, r: Request, b: seq<Request>)
    ensures Members(a + [r] + b) == Members(a + b) + {r}
  {
    assert forall x :: x in a + [r] + b <==> x in a || x == r || x in b;
    assert forall x :: x in a + b <==> x in a || x in b;
  }

  lemma InsertAscending(a: seq<Request>, r: Request, b: seq<Request>)
    requires Ascending(a) && Ascending(b) && Below(a, b) && 0 < r.sectors && r.Addressable()
    requires forall x :: x in a ==> x.Limit() <= r.pos
    requires forall x :: x in b ==> r.Limit() <= x.pos
    ensures Ascending(a + [r] + b)
  {
    AscendingJoin(a, [r]);
    AscendingJoin(a + [r], b);
  }

  lemma FitsAround(q: seq<Request>, r: Request, x: Request)
    requires Ascending(q) && Fits(Members(q), r) && x in q
    ensures if x.pos < r.pos then x.Limit() <= r.pos else r.Limit() <= x.pos
  {
    assert x in Members(q) && Disjoint(r, x);
    var i :| 0 <= i < |q| && q[i] == x;
  }

  lemma InsertHalves(q: seq<Request>, r: Request) returns (a: seq<Request>, b: seq<Request>)
    requires Sorted(q)
    ensures q == a + b && Insert(q, r) == a + [r] + b
    ensures forall x :: x in a ==> x in q && x.pos < r.pos
    ensures forall x :: x in b ==> x in q && r.pos <= x.pos
  {
    var k := InsertPlace(q, r);
    a, b := q[..k], q[k..];
  }

  lemma InsertQueue(q: seq<Request>, r: Request)
    requires Ascending(q) && Fits(Members(q), r)
    ensures Ascending(Insert(q, r))
    ensures Members(Insert(q, r)) == Members(q) + {r}
  {
    var a, b := InsertHalves(q, r);
    forall x | x in q ensures if x.pos < r.pos then x.Limit() <= r.pos else r.Limit() <= x.pos {
      FitsAround(q, r, x);
    }
    InsertAround(a, r, b, q);
  }

  lemma InsertAround(a: seq<Request>, r: Request, b: seq<Request>, q: seq<Request>)
    requires q == a + b && Ascending(q) && 0 < r.sectors && r.Addressable()
    requires forall x :: x in a ==> x.Limit() <= r.pos
    requires forall x :: x in b ==> r.Limit() <= x.pos
    ensures Ascending(a + [r] + b) && Members(a + [r] + b) == Members(q) + {r}
  {
    AscendingSplit(a, b);
    InsertAscending(a, r, b);
    InsertMembers(a, r, b);
  }

  /** The parts of a state that keep the cut. */
  lemma CutFromParts(s: State)
    requires Ascending(s.lower) && Ascending(s.upper) && Below(s.lower, s.upper) && s.head < TWO_64
    requires forall x :: x in Members(s.lower) ==> x.pos < s.head
    requires forall x :: x in Members(s.upper) ==> s.head <= x.pos
    ensures Cut(s)
  {
    AscendingConcat(s.lower, s.upper);
    assert forall i :: 0 <= i < |s.lower| ==> s.lower[i] in Members(s.lower);
    assert forall i :: 0 <= i < |s.upper| ==> s.upper[i] in Members(s.upper);
  }

  lemma CutMembers(s: State)
    requires Cut(s)
    ensures forall x :: x in Members(s.lower) ==> x.pos < s.head
    ensures forall x :: x in Members(s.upper) ==> s.head <= x.pos
  {
  }

  lemma MembersConcat(a: seq<Request>, b: seq<Request>)
    ensures Members(a + b) == Members(a) + Members(b)
  {
  }

  lemma WidenLower(s: State, a: seq<Request>, r: Request)
    requires Cut(s) && Ascending(a) && Members(a) == Members(s.lower) + {r}
    requires r.pos < s.head && forall y :: y in s.upper ==> r.Limit() <= y.pos
    ensures Cut(s.(lower := a))
  {
    CutParts(s);
    CutMembers(s);
    forall x, y | x in a && y in s.upper ensures x.Limit() <= y.pos {
      assert x in Members(a);
    }
    CutFromParts(s.(lower := a));
  }

  lemma WidenUpper(s: State, b: seq<Request>, r: Request)
    requires Cut(s) && Ascending(b) && Members(b) == Members(s.upper) + {r}
    requires s.head <= r.pos && forall x :: x in s.lower ==> x.Limit() <= r.pos
    ensures Cut(s.(upper := b))
  {
    CutParts(s);
    CutMembers(s);
    forall x, y | x in s.lower && y in b ensures x.Limit() <= y.pos {
      assert y in Members(b);
    }
    CutFromParts(s.(upper := b));
  }

  /** What an arrival disjoint from all pending requests means for each queue. */
  lemma FitsQueues(s: State, r: Request)
    requires Cut(s) && Fits(Members(s.All()), r)
    ensures Fits(Members(s.lower), r) && Fits(Members(s.upper), r)
    ensures r.pos < s.head ==> forall y :: y in s.upper ==> r.Limit() <= y.pos
    ensures s.head <= r.pos ==> forall x :: x in s.lower ==> x.Limit() <= r.pos
  {
    CutParts(s);
    MembersConcat(s.lower, s.upper);
    forall x | x in s.lower || x in s.upper ensures Disjoint(r, x) && 0 < x.sectors {
      assert x in Members(s.All());
    }
  }

  lemma AddLower(s: State, r: Request)
    requires Cut(s) && Fits(Members(s.All()), r) && r.pos < s.head
    ensures Cut(Add(s, r)) && Members(Add(s, r).All()) == Members(s.All()) + {r}
  {
    CutParts(s);
    FitsQueues(s, r);
    InsertQueue(s.lower, r);
    WidenLower(s, Insert(s.lower, r), r);
    MembersConcat(s.lower, s.upper);
    MembersConcat(Insert(s.lower, r), s.upper);
  }

  lemma AddUpper(s: State, r: Request)
    requires Cut(s) && Fits(Members(s.All()), r) && s.head <= r.pos
    ensures Cut(Add(s, r)) && Members(Add(s, r).All()) == Members(s.All()) + {r}
  {
    CutParts(s);
    FitsQueues(s, r);
    InsertQueue(s.upper, r);
    WidenUpper(s, Insert(s.upper, r), r);
    MembersConcat(s.lower, s.upper);
    MembersConcat(s.lower, Insert(s.upper, r));
  }

  lemma AddCut(s: State, r: Request)
    requires Cut(s) && Fits(Members(s.All()), r)
    ensures Cut(Add(s, r))
    ensures Members(Add(s, r).All()) == Members(s.All()) + {r}
  {
    if r.pos < s.head {
      AddLower(s, r);
    } else {
      AddUpper(s, r);
    }
  }

  /** The greedy comparison finds the nearest pending request. */
  lemma TargetNearest(s: State)
    requires Cut(s) && !s.Empty()
    ensures IsNearest(Members(s.All()), s.head, Target(s))
    ensures forall r :: IsNearest(Members(s.All()), s.head, r) ==> r == Target(s)
  {
    var t := Target(s);
    TargetAsNear(s);
    forall r | IsNearest(Members(s.All()), s.head, r) ensures r == t {
      assert AsNear(s.head, r, t) && AsNear(s.head, t, r);
      AscendingDistinct(s.All(), r, t);
    }
  }

  lemma TargetAsNear(s: State)
    requires Cut(s) && !s.Empty()
    ensures Target(s) in s.All()
    ensures forall q :: q in s.All() ==> AsNear(s.head, Target(s), q)
  {
    CutParts(s);
    if s.lower != [] && s.upper != [] {
      CutComparison(s);
    }
    forall q | q in s.All() ensures AsNear(s.head, Target(s), q) {
      if q in s.lower {
        assert q.pos <= Last(s.lower).pos < s.head;
      } else {
        assert q in s.upper && s.head <= s.upper[0].pos <= q.pos;
      }
    }
  }

  lemma RemoveAscending(a: seq<Request>, t: Request, b: seq<Request>)
    requires Ascending(a + [t] + b)
    ensures Ascending(a + b) && Below(a, [t]) && Below([t], b)
    ensures Members(a + b) == Members(a + [t] + b) - {t}
  {
    AscendingConcat(a + [t], b);
    AscendingConcat(a, [t]);
    AscendingConcat(a, b);
    assert [t][0] == t && t in [t] && t in a + [t];
    InsertMembers(a, t, b);
    assert forall x :: x in a + b ==> x in a || x in b;
  }

  lemma AroundTarget(a: seq<Request>, t: Request, b: seq<Request>)
    requires Below(a, [t]) && Below([t], b) && 0 < t.sectors
    ensures forall i :: 0 <= i < |a| ==> a[i].pos < t.Limit()
    ensures forall i :: 0 <= i < |b| ==> t.Limit() <= b[i].pos
  {
    assert t in [t];
    forall i | 0 <= i < |a| ensures a[i].pos < t.Limit() {
      assert a[i] in a;
    }
    forall i | 0 <= i < |b| ensures t.Limit() <= b[i].pos {
      assert b[i] in b;
    }
  }

  lemma TargetFits(s: State)
    requires Cut(s) && !s.Empty()
    ensures Target(s).Addressable() && Target(s).End() == Target(s).Limit() && 0 < Target(s).sectors
  {
    assert Target(s) == s.All()[if PicksLower(s) then |s.lower| - 1 else |s.lower|];
  }

  lemma ServeCut(s: State)
    requires Cut(s) && !s.Empty()
    ensures Cut(Serve(s)) && Serve(s).head == Target(s).Limit()
    ensures Members(Serve(s).All()) == Members(s.All()) - {Target(s)}
  {
    var a, b := Serve(s).lower, Serve(s).upper;
    ServeParts(s);
    RemoveAscending(a, Target(s), b);
    TargetFits(s);
    AroundTarget(a, Target(s), b);
  }

  lemma MergeMembers(a: seq<Request>, x: Request, y: Request, b: seq<Request>)
    requires Ascending(a + [x] + [y] + b)
    ensures Members(a + [Absorb(x, y)] + b) == Members(a + [x] + [y] + b) - {x, y} + {Absorb(x, y)}
  {
    RemoveAscending(a + [x], y, b);
    RemoveAscending(a, x, b);
    InsertMembers(a, Absorb(x, y), b);
  }

  lemma MergeAtAscending(c: seq<Request>, i: nat)
    requires Ascending(c) && i + 1 < |c| && c[i].Limit() == c[i + 1].pos
    ensures Ascending(MergeAt(c, i))
  {
    var m := MergeAt(c, i);
    MergeAtElements(c, i);
    forall p, q | 0 <= p < q < |m| ensures m[p].Limit() <= m[q].pos {
      assert c[if p < i then p else p + 1].Limit() <= c[if q <= i then q else q + 1].pos;
    }
  }

  lemma MergeAtPending(c: seq<Request>, i: nat)
    requires Ascending(c) && i + 1 < |c|
    ensures Members(MergeAt(c, i)) == Members(c) - {c[i], c[i + 1]} + {Absorb(c[i], c[i + 1])}
  {
    assert c == c[..i] + [c[i]] + [c[i + 1]] + c[i + 2..];
    MergeMembers(c[..i], c[i], c[i + 1], c[i + 2..]);
  }

  /** In an ascending queue a contiguous successor is the latter request. */
  lemma LatterAdjoins(q: seq<Request>, r: Request, next: Request)
    requires Ascending(q) && r in q && r.Limit() == next.pos
    ensures next in q <==> LatterIn(q, r) == Some(next)
  {
    var i := Find(q, r);
    if next in q {
      var j :| 0 <= j < |q| && q[j] == next;
      assert q[i].pos < q[j].pos;
      assert i < j;
      assert q[i].Limit() <= q[i + 1].pos < q[i + 1].Limit();
    }
  }

  lemma MergeAllowed(s: State, r: Request, next: Request)
    requires Cut(s)
    ensures MayMerge(s, r, next) <==> Adjoining(Naive(Members(s.All()), s.head, []), r, next)
  {
    CutParts(s);
    if r.Limit() == next.pos {
      if r in s.lower {
        LatterAdjoins(s.lower, r, next);
      } else if r in s.upper {
        LatterAdjoins(s.upper, r, next);
      }
    }
  }

  /** A merge in one queue is a merge in the whole list. */
  lemma MergeAll(s: State, r: Request, next: Request) returns (k: nat)
    requires MayMerge(s, r, next)
    ensures k + 1 < |s.All()| && s.All()[k] == r && s.All()[k + 1] == next
    ensures Merge(s, r, next).All() == MergeAt(s.All(), k)
  {
    var i := Find(if r in s.lower then s.lower else s.upper, r);
    k := if r in s.lower then i else |s.lower| + i;
    MergeInPlace(s.lower, s.upper, i);
  }

  /** Absorbing the latter request keeps the ascending cut, and with it sortedness and disjointness. */
  lemma MergeCut(s: State, r: Request, next: Request)
    requires Cut(s) && MayMerge(s, r, next)
    ensures Cut(Merge(s, r, next))
    ensures Members(Merge(s, r, next).All()) == Members(s.All()) - {r, next} + {Absorb(r, next)}
  {
    var k := MergeAll(s, r, next);
    MergeAtAscending(s.All(), k);
    MergeAtPending(s.All(), k);
    MergeAtSides(s, r, next);
  }

  lemma MergeAtSides(s: State, r: Request, next: Request)
    requires Cut(s) && MayMerge(s, r, next)
    ensures var s' := Merge(s, r, next);
            && (forall i :: 0 <= i < |s'.lower| ==> s'.lower[i].pos < s.head)
            && (forall i :: 0 <= i < |s'.upper| ==> s.head <= s'.upper[i].pos)
  {
    var q := if r in s.lower then s.lower else s.upper;
    MergeAtElements(q, Find(q, r));
  }

  lemma MergeInPlace(a: seq<Request>, b: seq<Request>, i: nat)
    ensures i + 1 < |a| ==> MergeAt(a, i) + b == MergeAt(a + b, i)
    ensures i + 1 < |b| ==> a + MergeAt(b, i) == MergeAt(a + b, |a| + i)
  {
  }

  lemma StepSimulates(w: World, op: Op)
    requires Cut(w.s) && (op.AddOp? ==> Fits(Abs(w).pending, op.r))
    ensures Cut(Step(w, op).s)
    ensures Abs(Step(w, op)) == NaiveStep(Abs(w), op)
  {
    match op
    case AddOp(r) => AddCut(w.s, r);
    case DispatchOp =>
      if w.s.Empty() {
        assert Abs(w).pending == {};
        assert w.served + [] == w.served;
      } else {
        TargetNearest(w.s);
        ServeCut(w.s);
      }
    case MergeOp(r, next) =>
      MergeAllowed(w.s, r, next);
      if MayMerge(w.s, r, next) {
        MergeCut(w.s, r, next);
      }
  }

  /** For every run with disjoint arrivals the two queues and the naive scheduler hold the same
      requests, stand at the same head and have served the same requests in the same order. */
  lemma {:induction false} Refinement(ops: seq<Op>)
    requires DisjointArrivals(ops)
    ensures Cut(Run(ops).s)
    ensures Abs(Run(ops)) == NaiveRun(ops)
  {
    if ops != [] {
      Refinement(ops[..|ops| - 1]);
      StepSimulates(Run(ops[..|ops| - 1]), ops[|ops| - 1]);
    }
  }
}
