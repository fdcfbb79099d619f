/** What draining a batch costs: the greedy scheduler serves requests of non-overlapping extents
    with no arrival in between. */
module SeekCost {
  import opened Sectors
  import opened Scheduler
  import opened NearestFirst

  // ---------- moves of a drain ----------

  /** The k-th move serves the upper front. */
  predicate Up(s: State, k: nat)
    requires k < s.Pending()
  {
    !PicksLower(After(s, k))
  }

  function Goal(s: State, k: nat): Request
    requires k < s.Pending()
  {
    Target(After(s, k))
  }

  function Seek(s: State, k: nat): nat
    requires k < s.Pending()
  {
    Distance(After(s, k).head, Goal(s, k).pos)
  }

  predicate Reversal(s: State, k: nat)
    requires k < s.Pending()
  {
    k > 0 && Up(s, k) != Up(s, k - 1)
  }

  /** One dispatch more. */
  lemma NextMove(s: State, k: nat)
    requires k < s.Pending()
    ensures After(s, k + 1) == Serve(After(s, k)) && Served(s, k + 1) == Served(s, k) + [Goal(s, k)]
  {
  }

  lemma {:induction false} AfterCut(s: State, k: nat)
    requires Cut(s) && k <= s.Pending()
    ensures Cut(After(s, k))
  {
    if k > 0 {
      AfterCut(s, k - 1);
      ServeCut(After(s, k - 1));
    }
  }

  /** One move and the requests it leaves. A downward choice means the head was strictly nearer to
      the request below than to any above, an upward choice that it was not. */
  lemma MoveDown(s: State, x: Request, f: Request)
    requires Cut(s) && !s.Empty() && PicksLower(s)
    ensures var t := Target(s);
            && t.pos < s.head && Serve(s).head == t.Limit()
            && (x in Serve(s).lower ==> x in s.lower && x.Limit() <= t.pos)
            && (f in Serve(s).upper ==> f in s.upper && t.Limit() <= f.pos && 2 * s.head < f.pos + t.pos)
  {
    CutParts(s);
    ServeCut(s);
    if f in s.upper {
      CutComparison(s);
    }
    ServeParts(s);
    RemoveAscending(Front(s.lower), Last(s.lower), s.upper);
    assert Target(s) in [Target(s)];
  }

  lemma MoveUp(s: State, x: Request, f: Request)
    requires Cut(s) && !s.Empty() && !PicksLower(s)
    ensures var t := Target(s);
            && s.head <= t.pos && Serve(s).head == t.Limit()
            && (x in Serve(s).lower ==> x in s.lower && x.pos < s.head && t.pos + x.pos <= 2 * s.head)
            && (f in Serve(s).upper ==> f in s.upper && t.Limit() <= f.pos)
  {
    CutParts(s);
    ServeCut(s);
    if x in s.lower {
      CutComparison(s);
    }
    ServeParts(s);
    RemoveAscending(s.lower, s.upper[0], s.upper[1..]);
    assert Target(s) in [Target(s)];
  }

  // ---------- contiguous service ----------

  /** Serving one end of the gap [a, b) widens it by the request served. */
  lemma BlockStep(c: seq<Request>, a: nat, b: nat, m: State)
    requires a <= b <= |c| && m.lower == c[..a] && m.upper == c[b..] && !m.Empty()
    ensures var m', t := Serve(m), Target(m);
            if PicksLower(m) then 0 < a && m'.lower == c[..a - 1] && m'.upper == c[b..] && c[a - 1..b] == [t] + c[a..b]
            else b < |c| && m'.lower == c[..a] && m'.upper == c[b + 1..] && c[a..b + 1] == c[a..b] + [t]
  {
    if PicksLower(m) {
      assert c[a - 1] == Target(m);
    } else {
      assert c[b] == Target(m);
    }
  }

  lemma BagGrows<T>(rs: seq<T>, block: seq<T>, block': seq<T>, t: T)
    requires multiset(rs) == multiset(block) && (block' == [t] + block || block' == block + [t])
    ensures multiset(rs + [t]) == multiset(block')
  {
  }

  /** The served requests are one block of the initial list, around the cut; the rest still waits
      on its two sides. */
  lemma {:induction false} ServedBlock(s: State, k: nat) returns (a: nat, b: nat)
    requires k <= s.Pending()
    ensures a <= |s.lower| <= b <= |s.All()| && b - a == k
    ensures After(s, k).lower == s.All()[..a] && After(s, k).upper == s.All()[b..]
    ensures multiset(Served(s, k)) == multiset(s.All()[a..b])
  {
    var c := s.All();
    if k == 0 {
      a, b := |s.lower|, |s.lower|;
    } else {
      var j := k - 1;
      var a0, b0 := ServedBlock(s, j);
      var m := After(s, j);
      NextMove(s, j);
      BlockStep(c, a0, b0, m);
      a, b := if PicksLower(m) then a0 - 1 else a0, if PicksLower(m) then b0 else b0 + 1;
      BagGrows(Served(s, j), c[a0..b0], c[a..b], Target(m));
    }
  }

  /** One dispatch divides the other pending requests about the one it serves. */
  lemma DividedServe(m: State, r: Request)
    requires Cut(m) && !m.Empty() && r in Serve(m).All()
    ensures r in m.All() && (r in Serve(m).lower <==> r in m.lower)
    ensures if r in Serve(m).lower then r.Limit() <= Target(m).pos else Target(m).Limit() <= r.pos
  {
    ServeParts(m);
    var a, b := Serve(m).lower, Serve(m).upper;
    RemoveAscending(a, Target(m), b);
    assert Target(m) in [Target(m)];
    CutSides(m, Target(m));
    CutSides(m, r);
  }

  lemma CutSides(s: State, r: Request)
    requires Cut(s) && r in s.All()
    ensures r in s.lower <==> r.pos < s.head
    ensures r in s.upper <==> s.head <= r.pos
  {
  }

  lemma {:induction false} StillThere(s: State, k: nat, r: Request)
    requires Cut(s) && k <= s.Pending() && r in After(s, k).All()
    ensures if r in After(s, k).lower then r in s.lower else r in s.upper
  {
    if k > 0 {
      AfterCut(s, k - 1);
      DividedServe(After(s, k - 1), r);
      StillThere(s, k - 1, r);
    } else {
      CutSides(s, r);
    }
  }

  /** Every pending request lies below everything served and in the initial lower queue, so below
      the initial head, or at or above the end of everything served and in the initial upper queue. */
  lemma {:induction false} ContiguousService(s: State, k: nat, r: Request, t: Request)
    requires Cut(s) && k <= s.Pending() && r in After(s, k).All() && t in Served(s, k)
    ensures if r in After(s, k).lower then r.Limit() <= t.pos else t.Limit() <= r.pos
    ensures if r in After(s, k).lower then r in s.lower else r in s.upper
  {
    var j := k - 1;
    var m := After(s, j);
    AfterCut(s, j);
    NextMove(s, j);
    DividedServe(m, r);
    if t != Target(m) {
      assert t in Served(s, j);
      ContiguousService(s, j, r, t);
    } else {
      StillThere(s, j, r);
    }
  }

  // ---------- doubling ----------

  lemma Climb(s: State, k: nat)
    requires Cut(s) && k < s.Pending() && Up(s, k)
    ensures After(s, k + 1).lower == After(s, k).lower
    ensures After(s, k).head <= Goal(s, k).pos <= After(s, k + 1).head
  {
    AfterCut(s, k);
    MoveUp(After(s, k), Goal(s, k), Goal(s, k));
  }

  lemma Sink(s: State, k: nat)
    requires Cut(s) && k < s.Pending() && !Up(s, k)
    ensures After(s, k + 1).upper == After(s, k).upper
    ensures After(s, k + 1).head == Goal(s, k).Limit() && Goal(s, k) in After(s, k).lower
    ensures forall x :: x in After(s, k + 1).lower ==> x.Limit() <= Goal(s, k).pos
  {
    var m := After(s, k);
    AfterCut(s, k);
    MoveDown(m, Target(m), Target(m));
    forall x | x in Serve(m).lower ensures x.Limit() <= Target(m).pos {
      MoveDown(m, x, x);
    }
  }

  ghost predicate Steady(s: State, i: nat, j: nat)
    requires i < j < s.Pending()
  {
    forall m :: i < m < j ==> !Reversal(s, m)
  }

  ghost predicate Consecutive(s: State, i: nat, j: nat)
    requires j < s.Pending()
  {
    i < j && Reversal(s, i) && Reversal(s, j) && Steady(s, i, j)
  }

  /** While the head keeps going up, the lower queue waits and the head stays above the request
      the first of these moves reached. */
  lemma {:induction false} UpStretch(s: State, i: nat, j: nat)
    requires Cut(s) && i < j < s.Pending() && Up(s, i) && Steady(s, i, j)
    ensures Up(s, j - 1)
    ensures After(s, j).lower == After(s, i).lower && Goal(s, i).pos <= After(s, j).head
  {
    if i + 1 == j {
      Climb(s, i);
    } else {
      var m := j - 1;
      UpStretch(s, i, m);
      assert !Reversal(s, m);
      assert Up(s, m);
      Climb(s, m);
    }
  }

  lemma {:induction false} DownStretch(s: State, i: nat, j: nat)
    requires Cut(s) && i < j < s.Pending() && !Up(s, i) && Steady(s, i, j)
    ensures !Up(s, j - 1)
    ensures After(s, j).upper == After(s, i).upper && After(s, j).head <= Goal(s, i).Limit()
    ensures forall x :: x in After(s, j).lower ==> x.Limit() <= After(s, j).head
  {
    if i + 1 == j {
      Sink(s, i);
    } else {
      var m := j - 1;
      DownStretch(s, i, m);
      assert !Reversal(s, m);
      assert !Up(s, m);
      Sink(s, m);
    }
  }

  /** Of two consecutive reversals the second seeks at least twice as far as an upward first, and
      falls short of twice a downward first by less than the request that one reached. */
  lemma Doubling(s: State, i: nat, j: nat)
    requires Cut(s) && j < s.Pending() && Consecutive(s, i, j)
    ensures Up(s, i) ==> Seek(s, j) >= 2 * Seek(s, i)
    ensures !Up(s, i) ==> Seek(s, j) + Goal(s, i).sectors > 2 * Seek(s, i)
  {
    var mi, mj := After(s, i), After(s, j);
    AfterCut(s, i);
    AfterCut(s, j);
    if Up(s, i) {
      UpStretch(s, i, j);
      var t := Goal(s, j);
      assert t in mi.lower;
      MoveUp(mi, t, t);
      MoveDown(mj, t, t);
    } else {
      DownStretch(s, i, j);
      var f := Goal(s, j);
      assert f in mi.upper;
      MoveDown(mi, f, f);
      MoveUp(mj, f, f);
    }
  }

  // ---------- the bound on a whole drain ----------

  ghost function SeekSum(s: State, k: nat): nat
    requires k <= s.Pending()
  {
    if k == 0 then 0 else SeekSum(s, k - 1) + Seek(s, k - 1)
  }

  /** The part of SeekSum spent on reversals. */
  ghost function ReversalSum(s: State, k: nat): nat
    requires k <= s.Pending()
  {
    if k == 0 then 0 else ReversalSum(s, k - 1) + if Reversal(s, k - 1) then Seek(s, k - 1) else 0
  }

  /** The part spent on moves that keep the direction, the first move among them. */
  ghost function StraightSum(s: State, k: nat): nat
    requires k <= s.Pending()
  {
    if k == 0 then 0 else StraightSum(s, k - 1) + if Reversal(s, k - 1) then 0 else Seek(s, k - 1)
  }

  lemma SeekParts(s: State, k: nat)
    requires k <= s.Pending()
    ensures SeekSum(s, k) == ReversalSum(s, k) + StraightSum(s, k)
  {
  }

  /** Where the head stood when it last changed direction. */
  ghost function Turn(s: State, k: nat): nat
    requires k <= s.Pending()
  {
    if k == 0 then s.head
    else if Reversal(s, k - 1) then After(s, k - 1).head
    else Turn(s, k - 1)
  }

  ghost function Size(r: Request): nat { r.sectors }

  ghost function Moved(s: State, k: nat): nat
    requires k <= s.Pending()
  {
    Sum(Served(s, k), Size)
  }

  lemma MovedStep(s: State, k: nat)
    requires k < s.Pending()
    ensures Moved(s, k + 1) == Moved(s, k) + Goal(s, k).sectors
  {
    NextMove(s, k);
    SumSnoc(Served(s, k), Goal(s, k), Size);
  }

  ghost predicate Within(q: seq<Request>, lo: nat, hi: nat) {
    forall r :: r in q ==> lo <= r.pos && r.Limit() <= hi
  }

  /** The potential. Straight moves are paid for by the ground covered since the last turn,
      reversals by the seek any request on the other side would need now. */
  ghost predicate Paid(s: State, k: nat, lo: nat, hi: nat)
    requires k <= s.Pending()
  {
    var m, done := After(s, k), Moved(s, k);
    && lo <= m.head <= hi && lo <= Turn(s, k) <= hi && Within(m.All(), lo, hi)
    && ReversalSum(s, k) <= 2 * (hi - lo) + done
    && StraightSum(s, k) <= hi - lo + done
    && if k == 0 then true
       else if Up(s, k - 1) then
         && StraightSum(s, k) + Turn(s, k) <= m.head + done
         && forall x :: x in m.lower ==> x.pos <= Turn(s, k) && ReversalSum(s, k) + x.pos <= m.head + done
       else
         && StraightSum(s, k) + m.head <= Turn(s, k) + done
         && (forall x :: x in m.lower ==> x.Limit() <= m.head)
         && forall f :: f in m.upper ==> Turn(s, k) <= f.pos && ReversalSum(s, k) + m.head <= f.pos + done
  }

  /** What the k-th move adds to each account. */
  lemma Ledger(s: State, k: nat)
    requires Cut(s) && k < s.Pending()
    ensures var rev := if Reversal(s, k) then Seek(s, k) else 0;
            && After(s, k + 1) == Serve(After(s, k))
            && ReversalSum(s, k + 1) == ReversalSum(s, k) + rev
            && StraightSum(s, k + 1) == StraightSum(s, k) + Seek(s, k) - rev
            && Turn(s, k + 1) == (if Reversal(s, k) then After(s, k).head else Turn(s, k))
            && Moved(s, k + 1) == Moved(s, k) + Goal(s, k).sectors
    ensures Turn(s, 0) == s.head && ReversalSum(s, 0) == StraightSum(s, 0) == Moved(s, 0) == 0
  {
    MovedStep(s, k);
  }

  lemma PaidUp(s: State, k: nat, lo: nat, hi: nat)
    requires Cut(s) && k < s.Pending() && Paid(s, k, lo, hi) && Up(s, k)
    ensures Paid(s, k + 1, lo, hi)
  {
    var m, m' := After(s, k), After(s, k + 1);
    var t := Target(m);
    AfterCut(s, k);
    Ledger(s, k);
    assert t in m.All() && t in m.upper;
    MoveUp(m, t, t);
    forall x | x in m'.lower
      ensures x in m.lower && x.pos < m.head && t.pos + x.pos <= 2 * m.head
    {
      MoveUp(m, x, x);
    }
    forall r | r in m'.All() ensures r in m.All() {}
  }

  lemma PaidDown(s: State, k: nat, lo: nat, hi: nat)
    requires Cut(s) && k < s.Pending() && Paid(s, k, lo, hi) && !Up(s, k)
    ensures Paid(s, k + 1, lo, hi)
  {
    var m, m' := After(s, k), After(s, k + 1);
    var t := Target(m);
    AfterCut(s, k);
    Ledger(s, k);
    assert t in m.All() && t in m.lower;
    MoveDown(m, t, t);
    forall x | x in m'.lower ensures x.Limit() <= t.pos {
      MoveDown(m, x, x);
    }
    forall f | f in m'.upper
      ensures f in m.upper && t.Limit() <= f.pos && 2 * m.head < f.pos + t.pos
    {
      MoveDown(m, f, f);
    }
    forall r | r in m'.All() ensures r in m.All() {}
  }

  lemma PaidStart(s: State, lo: nat, hi: nat)
    requires lo <= s.head <= hi && Within(s.All(), lo, hi)
    ensures Paid(s, 0, lo, hi)
  {
  }

  lemma {:induction false} PaidAlways(s: State, k: nat, lo: nat, hi: nat)
    requires Cut(s) && k <= s.Pending() && lo <= s.head <= hi && Within(s.All(), lo, hi)
    ensures Paid(s, k, lo, hi)
  {
    if k == 0 {
      PaidStart(s, lo, hi);
    } else {
      var j := k - 1;
      PaidAlways(s, j, lo, hi);
      if Up(s, j) {
        PaidUp(s, j, lo, hi);
      } else {
        PaidDown(s, j, lo, hi);
      }
    }
  }

  lemma {:induction false} MovedTotal(s: State, k: nat)
    requires k <= s.Pending()
    ensures Moved(s, k) + Sum(After(s, k).lower, Size) + Sum(After(s, k).upper, Size) == Sum(s.All(), Size)
  {
    if k == 0 {
      SumConcat(s.lower, s.upper, Size);
    } else {
      var j := k - 1;
      MovedTotal(s, j);
      SumServe(After(s, j), Size);
      MovedStep(s, j);
    }
  }

  /** Whatever interval [lo, hi] holds the head and the batch, draining the batch seeks at most three
      times its width plus twice the sectors transferred; reversals make up two widths of that and
      straight moves one. */
  lemma SeekBound(s: State, lo: nat, hi: nat)
    requires Cut(s) && lo <= s.head <= hi && Within(s.All(), lo, hi)
    ensures var n, total := s.Pending(), Sum(s.All(), Size);
            && ReversalSum(s, n) <= 2 * (hi - lo) + total
            && StraightSum(s, n) <= hi - lo + total
            && SeekSum(s, n) <= 3 * (hi - lo) + 2 * total
  {
    PaidAlways(s, s.Pending(), lo, hi);
    MovedTotal(s, s.Pending());
    SeekParts(s, s.Pending());
  }

  // ---------- against any other order ----------

  ghost function EndOf(h: nat, order: seq<Request>): nat {
    if order == [] then h else Last(order).Limit()
  }

  /** Head movement, seeks and transfers together, when requests are served in the given order. */
  ghost function Travel(h: nat, order: seq<Request>): nat {
    if order == [] then 0
    else
      var before := order[..|order| - 1];
      Travel(h, before) + Distance(EndOf(h, before), Last(order).pos) + Last(order).sectors
  }

  ghost predicate Visited(h: nat, order: seq<Request>, p: nat) {
    p == h || exists r :: r in order && (p == r.pos || p == r.Limit())
  }

  /** The head travels at least the distance between any two points it has to visit. */
  lemma {:induction false} TravelSpans(h: nat, order: seq<Request>, p: nat, q: nat)
    requires Visited(h, order, p) && Visited(h, order, q)
    ensures Distance(p, q) <= Travel(h, order)
  {
    if order != [] {
      var before := order[..|order| - 1];
      var e := EndOf(h, before);
      VisitedLast(h, order, p);
      VisitedLast(h, order, q);
      VisitedEnd(h, before);
      if Visited(h, before, p) {
        TravelSpans(h, before, p, e);
        if Visited(h, before, q) {
          TravelSpans(h, before, p, q);
        }
      } else if Visited(h, before, q) {
        TravelSpans(h, before, q, e);
      }
    }
  }

  lemma VisitedEnd(h: nat, order: seq<Request>)
    ensures Visited(h, order, EndOf(h, order))
  {
    if order != [] {
      assert Last(order) in order;
    }
  }

  lemma VisitedLast(h: nat, order: seq<Request>, p: nat)
    requires order != [] && Visited(h, order, p)
    ensures Visited(h, order[..|order| - 1], p) || p == Last(order).pos || p == Last(order).Limit()
  {
    if p != h {
      var r :| r in order && (p == r.pos || p == r.Limit());
      assert order == order[..|order| - 1] + [Last(order)];
      assert r != Last(order) ==> r in order[..|order| - 1];
    }
  }

  lemma TravelSnoc(h: nat, order: seq<Request>, r: Request)
    ensures EndOf(h, order + [r]) == r.Limit()
    ensures Travel(h, order + [r]) == Travel(h, order) + Distance(EndOf(h, order), r.pos) + r.sectors
  {
    assert (order + [r])[..|order|] == order;
  }

  lemma EndServed(s: State, k: nat)
    requires Cut(s) && k <= s.Pending()
    ensures EndOf(s.head, Served(s, k)) == After(s, k).head
  {
    if k > 0 {
      AfterCut(s, k - 1);
      ServeCut(After(s, k - 1));
    }
  }

  lemma TravelStep(s: State, k: nat)
    requires Cut(s) && k < s.Pending() && Travel(s.head, Served(s, k)) == SeekSum(s, k) + Moved(s, k)
    ensures Travel(s.head, Served(s, k + 1)) == SeekSum(s, k + 1) + Moved(s, k + 1)
  {
    EndServed(s, k);
    NextMove(s, k);
    MovedStep(s, k);
    TravelSnoc(s.head, Served(s, k), Goal(s, k));
  }

  lemma TravelServed(s: State, k: nat)
    requires Cut(s) && k <= s.Pending()
    ensures Travel(s.head, Served(s, k)) == SeekSum(s, k) + Moved(s, k)
  {
    for j := 0 to k
      invariant Travel(s.head, Served(s, j)) == SeekSum(s, j) + Moved(s, j)
    {
      TravelStep(s, j);
    }
  }

  lemma {:induction false} SectorsFit(c: seq<Request>)
    requires Ascending(c) && c != []
    ensures c[0].pos + Sum(c, Size) <= Last(c).Limit()
    ensures Within(c, c[0].pos, Last(c).Limit())
  {
    if |c| == 1 {
      SumOne(c[0], Size);
      assert c == [c[0]];
    } else {
      SectorsFit(Front(c));
    }
  }

  /** Draining greedily moves the head at most six times as far as any other order would. */
  lemma SixCompetitive(s: State, order: seq<Request>)
    requires Cut(s) && multiset(order) == multiset(s.All())
    ensures Travel(s.head, Served(s, s.Pending())) <= 6 * Travel(s.head, order)
  {
    var n, c := s.Pending(), s.All();
    TravelServed(s, n);
    MovedTotal(s, n);
    if c != [] {
      SectorsFit(c);
      var a, b := c[0].pos, Last(c).Limit();
      var lo, hi := if s.head < a then s.head else a, if s.head < b then b else s.head;
      SeekBound(s, lo, hi);
      assert c[0] in multiset(c) && Last(c) in multiset(c);
      assert c[0] in order && Last(c) in order;
      TravelSpans(s.head, order, lo, hi);
    }
  }
}
