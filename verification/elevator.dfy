/** The scheduler as it lives in memory: two circular doubly linked lists with sentinels, changed in
    place. Each method is proved against the step of module Scheduler it implements. */
module GreedyElevator {
  import opened Sectors
  import Spec = Scheduler

  /** A struct request with its queuelist links, or a sentinel, whose request fields mean nothing. */
  class Node {
    const id: nat
    var pos: nat
    var sectors: nat
    var prev: Node
    var next: Node

    /** INIT_LIST_HEAD */
    constructor (id: nat, pos: nat, sectors: nat)
      ensures this.id == id && this.pos == pos && this.sectors == sectors && prev == next == this
    {
      this.id, this.pos, this.sectors := id, pos, sectors;
      prev, next := this, this;
    }

    function Value(): Request
      reads this`pos, this`sectors
    {
      Request(id, pos, sectors)
    }
  }

  /** What the requests of a list say, however they are linked. */
  function Values(ns: seq<Node>): (rs: seq<Request>)
    reads ns
    ensures |rs| == |ns| && forall i :: 0 <= i < |ns| ==> rs[i] == ns[i].Value()
  {
    seq(|ns|, i requires 0 <= i < |ns| reads ns => ns[i].Value())
  }

  /** Relinking requests leaves what they say alone. */
  twostate lemma SameValues(ns: seq<Node>)
    requires forall n :: n in ns ==> n.pos == old(n.pos) && n.sectors == old(n.sectors)
    ensures Values(ns) == old(Values(ns))
  {
  }

  lemma ValuesRemoved(ns: seq<Node>, k: nat)
    requires k < |ns|
    ensures Values(Removed(ns, k)) == Removed(Values(ns), k)
  {
  }

  lemma ValuesInserted(ns: seq<Node>, k: nat, x: Node)
    requires k <= |ns|
    ensures Values(Spec.Splice(ns, k, x)) == Spec.Splice(Values(ns), k, x.Value())
  {
  }

  // ---------- circular lists ----------

  /** The list once around, from the sentinel back to the sentinel. */
  function Chain(h: Node, ns: seq<Node>): seq<Node> {
    [h] + ns + [h]
  }

  /** Every node on the way differs from the sentinel and from the others; links and back links agree. */
  ghost predicate Ring(h: Node, ns: seq<Node>)
    reads h`prev, h`next, ns`prev, ns`next
  {
    var c := Chain(h, ns);
    && Distinct(h, ns)
    && (forall i :: 0 <= i <= |ns| ==> c[i].next == c[i + 1])
    && (forall i :: 0 < i <= |ns| + 1 ==> c[i].prev == c[i - 1])
  }

  function Removed<T>(ns: seq<T>, k: nat): seq<T>
    requires k < |ns|
  {
    ns[..k] + ns[k + 1..]
  }

  ghost predicate Distinct(h: Node, ns: seq<Node>) {
    forall i, j :: 0 <= i < j <= |ns| ==> Chain(h, ns)[i] != Chain(h, ns)[j]
  }

  /** The ring passes no node twice, counted from its second position on as well. */
  lemma InnerDistinct(h: Node, ns: seq<Node>, i: nat, j: nat)
    requires Distinct(h, ns) && 0 < i < j <= |ns| + 1
    ensures Chain(h, ns)[i] != Chain(h, ns)[j]
  {
    if j == |ns| + 1 {
      assert Chain(h, ns)[0] != Chain(h, ns)[i];
    }
  }

  lemma InsertedChain(h: Node, ns: seq<Node>, k: nat, x: Node)
    requires Distinct(h, ns) && k <= |ns| && x != h && x !in ns
    ensures var c, c' := Chain(h, ns), Chain(h, Spec.Splice(ns, k, x));
            forall i :: 0 <= i < |c'| ==> c'[i] == (if i <= k then c[i] else if i == k + 1 then x else c[i - 1])
    ensures Distinct(h, Spec.Splice(ns, k, x))
  {
    var c, c' := Chain(h, ns), Chain(h, Spec.Splice(ns, k, x));
    assert forall i :: 0 <= i < |c'| ==> c'[i] == (if i <= k then c[i] else if i == k + 1 then x else c[i - 1]);
    forall i, j | 0 <= i < j <= |ns| + 1 ensures c'[i] != c'[j] {
      if i != k + 1 && j != k + 1 {
        assert c[if i <= k then i else i - 1] != c[if j <= k then j else j - 1];
      }
    }
  }

  lemma RemovedChain(h: Node, ns: seq<Node>, k: nat)
    requires Distinct(h, ns) && k < |ns|
    ensures var c, c' := Chain(h, ns), Chain(h, Removed(ns, k));
            forall i :: 0 <= i < |c'| ==> c'[i] == (if i <= k then c[i] else c[i + 1])
    ensures Distinct(h, Removed(ns, k))
  {
    var c, c' := Chain(h, ns), Chain(h, Removed(ns, k));
    assert forall i :: 0 <= i < |c'| ==> c'[i] == (if i <= k then c[i] else c[i + 1]);
    forall i, j | 0 <= i < j < |ns| ensures c'[i] != c'[j] {
      assert c[if i <= k then i else i + 1] != c[if j <= k then j else j + 1];
    }
  }

  /** list_add(x, at), where `at` is the k-th element of the ring around h, the sentinel being the 0th. */
  method ListAdd(x: Node, at: Node, ghost h: Node, ghost ns: seq<Node>, ghost k: nat)
    requires Ring(h, ns) && x != h && x !in ns && k <= |ns| && at == Chain(h, ns)[k]
    modifies x`prev, x`next, at`next, at.next`prev
    ensures Ring(h, Spec.Splice(ns, k, x))
  {
    ghost var c, c' := Chain(h, ns), Chain(h, Spec.Splice(ns, k, x));
    assert at.next == c[k + 1];
    var next := at.next;
    next.prev := x;
    x.next := next;
    x.prev := at;
    at.next := x;
    InsertedChain(h, ns, k, x);
    assert forall i :: 0 <= i < |c| ==> c[i] != x;
    forall i | 0 <= i <= |ns| + 1 ensures c'[i].next == c'[i + 1] {
      if i < k {
        assert c[i] != c[k] && old(c[i].next) == c[i + 1];
      } else if i > k + 1 {
        assert c[k] != c[i - 1] && old(c[i - 1].next) == c[i];
      }
    }
    forall i | 0 < i <= |ns| + 2 ensures c'[i].prev == c'[i - 1] {
      if i < k + 1 {
        InnerDistinct(h, ns, i, k + 1);
        assert old(c[i].prev) == c[i - 1];
      } else if i > k + 2 {
        InnerDistinct(h, ns, k + 1, i - 1);
        assert old(c[i - 1].prev) == c[i - 2];
      }
    }
  }

  /** list_del_init(x), where x is the element after the first k of the ring around h. */
  method ListDelInit(x: Node, ghost h: Node, ghost ns: seq<Node>, ghost k: nat)
    requires Ring(h, ns) && k < |ns| && x == ns[k]
    modifies x`prev, x`next, x.next`prev, x.prev`next
    ensures Ring(h, Removed(ns, k)) && x.prev == x.next == x
  {
    ghost var c, c' := Chain(h, ns), Chain(h, Removed(ns, k));
    assert c[k + 1] == x && x.next == c[k + 2] && x.prev == c[k];
    x.next.prev := x.prev;
    x.prev.next := x.next;
    x.next := x;
    x.prev := x;
    RemovedChain(h, ns, k);
    assert c[k] != c[k + 1];
    InnerDistinct(h, ns, k + 1, k + 2);
    forall i | 0 <= i < |ns| ensures c'[i].next == c'[i + 1] {
      if i < k {
        assert c[i] != c[k] && c[i] != c[k + 1] && old(c[i].next) == c[i + 1];
      } else if i > k {
        assert c[k] != c[i + 1] && c[k + 1] != c[i + 1] && old(c[i + 1].next) == c[i + 2];
      }
    }
    forall i | 0 < i <= |ns| ensures c'[i].prev == c'[i - 1] {
      if i <= k {
        InnerDistinct(h, ns, i, k + 1);
        InnerDistinct(h, ns, i, k + 2);
        assert old(c[i].prev) == c[i - 1];
      } else if i > k + 1 {
        InnerDistinct(h, ns, k + 1, i + 1);
        InnerDistinct(h, ns, k + 2, i + 1);
        assert old(c[i + 1].prev) == c[i];
      }
    }
  }

  /** The neighbours of the k-th element of a ring, the sentinel being the 0th. */
  lemma RingLinks(h: Node, ns: seq<Node>, k: nat)
    requires Ring(h, ns) && k <= |ns|
    ensures var c := Chain(h, ns);
            && c[k].next == c[k + 1] && c[k].prev == (if k == 0 then c[|ns|] else c[k - 1])
            && (c[k].next == h <==> k == |ns|) && (c[k].prev == h <==> k == 1 || |ns| == 0)
    ensures h !in ns
  {
    var c := Chain(h, ns);
    assert c[0] == h && c[|ns| + 1] == h;
    assert forall i :: 0 <= i < |ns| ==> ns[i] == c[i + 1];
    assert c[|ns| + 1].prev == c[|ns|];
  }

  /** Removing one element of a ring removes one node, and inserting adds one. */
  lemma RemovedMembers(h: Node, ns: seq<Node>, k: nat)
    requires Distinct(h, ns) && k < |ns|
    ensures forall n :: n in Removed(ns, k) <==> n in ns && n != ns[k]
  {
    assert ns == ns[..k] + [ns[k]] + ns[k + 1..];
    forall i | 0 <= i < |ns| && i != k ensures ns[i] != ns[k] {
      if i < k {
        NodesDiffer(h, ns, i, k);
      } else {
        NodesDiffer(h, ns, k, i);
      }
    }
  }

  lemma InsertedMembers(ns: seq<Node>, k: nat, x: Node)
    requires k <= |ns|
    ensures forall n :: n in Spec.Splice(ns, k, x) <==> n in ns || n == x
  {
    assert ns == ns[..k] + ns[k..];
  }

  lemma NodesDiffer(h: Node, ns: seq<Node>, i: nat, j: nat)
    requires Distinct(h, ns) && i < j < |ns|
    ensures ns[i] != ns[j]
  {
    assert ns[i] == Chain(h, ns)[i + 1] && ns[j] == Chain(h, ns)[j + 1];
  }

  // ---------- a sorted queue: one struct list_head and the requests on it ----------

  class Queue {
    const head: Node
    ghost var nodes: seq<Node>

    ghost predicate Valid()
      reads this`nodes, head`prev, head`next, nodes`prev, nodes`next
    {
      Ring(head, nodes)
    }

    constructor ()
      ensures Valid() && nodes == [] && fresh(head)
    {
      head := new Node(0, 0, 0);
      nodes := [];
    }

    /** list_empty */
    method IsEmpty() returns (empty: bool)
      requires Valid()
      ensures empty <==> nodes == []
    {
      RingLinks(head, nodes, 0);
      empty := head.next == head;
    }

    /** The reverse scan of greedy_add_request: the element, or the sentinel, to insert after. */
    method ScanBack(rq: Node) returns (pos: Node, ghost k: nat)
      requires Valid()
      ensures pos == head || (pos in nodes && pos.pos < rq.pos)
      ensures k <= |nodes| && pos == Chain(head, nodes)[k]
      ensures Spec.Splice(Values(nodes), k, rq.Value()) == Spec.Insert(Values(nodes), rq.Value())
    {
      k := |nodes|;
      pos := head.prev;
      RingLinks(head, nodes, 0);
      ghost var vs, r := Values(nodes), rq.Value();
      assert vs[..|nodes|] == vs;
      while pos != head && !(rq.pos > pos.pos)
        invariant 0 <= k <= |nodes| && pos == Chain(head, nodes)[k]
        invariant Spec.Insert(vs, r) == Spec.Insert(vs[..k], r) + vs[k..]
        decreases k
      {
        RingLinks(head, nodes, k);
        assert vs[k - 1] == pos.Value();
        Spec.InsertStepsBack(vs, k, r);
        pos := pos.prev;
        k := k - 1;
      }
      RingLinks(head, nodes, k);
    }

    /** Puts a request in the place the scan finds. */
    method InsertBySector(rq: Node) returns (ghost k: nat)
      requires Valid() && rq != head && rq !in nodes
      modifies this`nodes, rq`prev, rq`next, head`prev, head`next, nodes`prev, nodes`next
      ensures Valid() && k <= |old(nodes)| && nodes == Spec.Splice(old(nodes), k, rq)
      ensures Values(nodes) == Spec.Insert(old(Values(nodes)), rq.Value())
    {
      var pos: Node;
      pos, k := ScanBack(rq);
      RingLinks(head, nodes, k);
      ListAdd(rq, pos, head, nodes, k);
      SameValues(nodes);
      ValuesInserted(nodes, k, rq);
      nodes := Spec.Splice(nodes, k, rq);
    }
  }

  /** list_del_init on a queued request: the k-th of queue q. */
  method Unlink(x: Node, ghost q: Queue, ghost k: nat)
    requires q.Valid() && k < |q.nodes| && x == q.nodes[k]
    modifies q`nodes, q.head`prev, q.head`next, q.nodes`prev, q.nodes`next
    ensures q.Valid() && q.nodes == Removed(old(q.nodes), k) && x.prev == x.next == x
    ensures Values(q.nodes) == Removed(old(Values(q.nodes)), k)
  {
    assert x == Chain(q.head, q.nodes)[k + 1];
    RingLinks(q.head, q.nodes, k + 1);
    ListDelInit(x, q.head, q.nodes, k);
    SameValues(q.nodes);
    ValuesRemoved(q.nodes, k);
    q.nodes := Removed(q.nodes, k);
  }

  /** Changing what a request says leaves the links as they are. */
  twostate lemma QueueSteady(q: Queue)
    requires old(q.Valid()) && q.nodes == old(q.nodes)
    requires forall n :: n in [q.head] + q.nodes ==> n.prev == old(n.prev) && n.next == old(n.next)
    ensures q.Valid()
  {
    var c := Chain(q.head, q.nodes);
    assert forall i :: 0 <= i < |c| ==> c[i] in [q.head] + q.nodes;
  }

  lemma ServeIsRemoval(s: Spec.State)
    requires !s.Empty()
    ensures Spec.Serve(s) == if Spec.PicksLower(s)
                             then Spec.State(Removed(s.lower, |s.lower| - 1), s.upper, Spec.Target(s).End())
                             else Spec.State(s.lower, Removed(s.upper, 0), Spec.Target(s).End())
  {
  }

  lemma MergeIsRemoval(vs: seq<Request>, k: nat)
    requires k + 1 < |vs|
    ensures Spec.MergeAt(vs, k) == Removed(vs[k := Spec.Absorb(vs[k], vs[k + 1])], k + 1)
  {
  }

  // ---------- struct greedy_data ----------

  class GreedyData {
    const lower: Queue
    const upper: Queue
    var diskHead: nat
    /** The dispatch list of the request queue, filled by elv_dispatch_add_tail. */
    var dispatched: seq<Node>

    ghost predicate Valid()
      reads lower`nodes, lower.head`prev, lower.head`next, lower.nodes`prev, lower.nodes`next
      reads upper`nodes, upper.head`prev, upper.head`next, upper.nodes`prev, upper.nodes`next
    {
      && lower != upper && lower.head != upper.head
      && lower.Valid() && upper.Valid()
      && lower.head !in upper.nodes && upper.head !in lower.nodes
      && (forall n :: n in lower.nodes ==> n !in upper.nodes)
    }

    ghost function Queued(): set<Node>
      reads lower, upper
    {
      (set n | n in lower.nodes) + (set n | n in upper.nodes)
    }

    /** An id stands for the address of a request, so no two queued requests share one. */
    ghost predicate UniqueIds()
      reads lower, upper
    {
      forall m, n :: m in Queued() && n in Queued() && m.id == n.id ==> m == n
    }

    ghost function View(): Spec.State
      reads this`diskHead, lower, lower.nodes, upper, upper.nodes
    {
      Spec.State(Values(lower.nodes), Values(upper.nodes), diskHead)
    }

    /** greedy_init_queue */
    constructor ()
      ensures Valid() && UniqueIds() && View() == Spec.INITIAL && dispatched == []
      ensures fresh(lower) && fresh(upper) && fresh(lower.head) && fresh(upper.head)
    {
      lower := new Queue();
      upper := new Queue();
      diskHead := 0;
      dispatched := [];
    }

    /** The choice greedy_dispatch makes: null when both queues are empty. */
    method NextTarget() returns (target: Node?)
      requires Valid()
      ensures target == null <==> View().Empty()
      ensures target != null ==>
                && target in Queued() && target.Value() == Spec.Target(View())
                && if Spec.PicksLower(View()) then lower.nodes != [] && target == lower.nodes[|lower.nodes| - 1]
                   else upper.nodes != [] && target == upper.nodes[0]
    {
      var nextLower := lower.head.prev;
      var nextUpper := upper.head.next;
      RingLinks(lower.head, lower.nodes, 0);
      RingLinks(upper.head, upper.nodes, 0);
      var isLowerEmpty := nextLower == lower.head;
      var isUpperEmpty := nextUpper == upper.head;
      if isLowerEmpty && isUpperEmpty {
        return null;
      }
      if isLowerEmpty {
        target := nextUpper;
      } else if isUpperEmpty {
        target := nextLower;
      } else {
        var lowerDistance := Sub64(diskHead, nextLower.pos);
        var upperDistance := Sub64(nextUpper.pos, diskHead);
        if lowerDistance < upperDistance {
          target := nextLower;
        } else {
          target := nextUpper;
        }
      }
    }

    /** list_del_init on the k-th request of the lower or the upper queue. */
    method Detach(x: Node, ghost down: bool, ghost k: nat)
      requires Valid()
      requires var ns := if down then lower.nodes else upper.nodes; k < |ns| && x == ns[k]
      modifies lower`nodes, lower.head`prev, lower.head`next, lower.nodes`prev, lower.nodes`next
      modifies upper`nodes, upper.head`prev, upper.head`next, upper.nodes`prev, upper.nodes`next
      ensures Valid() && Queued() == old(Queued()) - {x} && x.prev == x.next == x
      ensures Values(lower.nodes) == if down then Removed(old(Values(lower.nodes)), k) else old(Values(lower.nodes))
      ensures Values(upper.nodes) == if down then old(Values(upper.nodes)) else Removed(old(Values(upper.nodes)), k)
    {
      ghost var q, other := if down then lower else upper, if down then upper else lower;
      RemovedMembers(q.head, q.nodes, k);
      Unlink(x, q, k);
      QueueSteady(other);
      SameValues(other.nodes);
    }

    /** The head moves to the end of the request, which leaves its queue for the dispatch list. */
    method MoveTo(t: Node, ghost down: bool, ghost k: nat)
      requires Valid()
      requires var ns := if down then lower.nodes else upper.nodes; k < |ns| && t == ns[k]
      modifies this`diskHead, this`dispatched, lower`nodes, upper`nodes
      modifies lower.head`prev, lower.head`next, lower.nodes`prev, lower.nodes`next
      modifies upper.head`prev, upper.head`next, upper.nodes`prev, upper.nodes`next
      ensures Valid() && Queued() == old(Queued()) - {t} && t.prev == t.next == t
      ensures Values(lower.nodes) == if down then Removed(old(Values(lower.nodes)), k) else old(Values(lower.nodes))
      ensures Values(upper.nodes) == if down then old(Values(upper.nodes)) else Removed(old(Values(upper.nodes)), k)
      ensures diskHead == old(t.Value()).End() && dispatched == old(dispatched) + [t]
    {
      diskHead := t.Value().End();
      SameValues(lower.nodes);
      SameValues(upper.nodes);
      Detach(t, down, k);
      label Detached:
      dispatched := dispatched + [t];
      SameValues@Detached(lower.nodes);
      SameValues@Detached(upper.nodes);
    }

    /** What greedy_dispatch does once the target is chosen. */
    method ServeTarget(t: Node)
      requires Valid() && !View().Empty()
      requires if Spec.PicksLower(View()) then t == lower.nodes[|lower.nodes| - 1] else t == upper.nodes[0]
      modifies this`diskHead, this`dispatched, lower`nodes, upper`nodes
      modifies lower.head`prev, lower.head`next, lower.nodes`prev, lower.nodes`next
      modifies upper.head`prev, upper.head`next, upper.nodes`prev, upper.nodes`next
      ensures Valid() && Queued() == old(Queued()) - {t} && t.prev == t.next == t
      ensures View() == Spec.Serve(old(View())) && dispatched == old(dispatched) + [t]
    {
      ServeIsRemoval(View());
      ghost var down := Spec.PicksLower(View());
      MoveTo(t, down, if down then |lower.nodes| - 1 else 0);
    }

    /** greedy_dispatch */
    method Dispatch() returns (ret: int, ghost target: Node?)
      requires Valid()
      modifies this`diskHead, this`dispatched, lower`nodes, upper`nodes
      modifies lower.head`prev, lower.head`next, lower.nodes`prev, lower.nodes`next
      modifies upper.head`prev, upper.head`next, upper.nodes`prev, upper.nodes`next
      ensures Valid()
      ensures ret == if old(View()).Empty() then 0 else 1
      ensures View() == Spec.Dispatch(old(View())).1
      ensures if ret == 0 then dispatched == old(dispatched) && Queued() == old(Queued())
              else
                && target != null && target in old(Queued()) && target.Value() == Spec.Target(old(View()))
                && dispatched == old(dispatched) + [target]
                && Queued() == old(Queued()) - {target} && target.prev == target.next == target
    {
      var t := NextTarget();
      target := t;
      ret := 0;
      if t != null {
        ServeTarget(t);
        ret := 1;
      }
    }

    /** greedy_add_request */
    method AddRequest(rq: Node)
      requires Valid() && rq !in Queued() && rq != lower.head && rq != upper.head
      modifies lower`nodes, upper`nodes, rq`prev, rq`next
      modifies lower.head`prev, lower.head`next, lower.nodes`prev, lower.nodes`next
      modifies upper.head`prev, upper.head`next, upper.nodes`prev, upper.nodes`next
      ensures Valid() && Queued() == old(Queued()) + {rq}
      ensures View() == Spec.Add(old(View()), rq.Value())
    {
      var target := if rq.pos < diskHead then lower else upper;
      ghost var other := if rq.pos < diskHead then upper else lower;
      assert rq !in other.nodes && rq !in target.nodes;
      ghost var ns, s := target.nodes, View();
      ghost var k := target.InsertBySector(rq);
      InsertedMembers(ns, k, rq);
      QueueSteady(other);
      SameValues(other.nodes);
    }

    /** greedy_former_request */
    function FormerRequest(rq: Node): Node?
      reads rq
    {
      if rq.prev == lower.head || rq.prev == upper.head then null else rq.prev
    }

    /** greedy_latter_request */
    function LatterRequest(rq: Node): Node?
      reads rq
    {
      if rq.next == lower.head || rq.next == upper.head then null else rq.next
    }

    /** greedy_merged_requests; only the link of `next` is used. */
    method MergedRequests(rq: Node, next: Node, ghost down: bool, ghost k: nat)
      requires Valid()
      requires var ns := if down then lower.nodes else upper.nodes; k < |ns| && next == ns[k]
      modifies lower`nodes, lower.head`prev, lower.head`next, lower.nodes`prev, lower.nodes`next
      modifies upper`nodes, upper.head`prev, upper.head`next, upper.nodes`prev, upper.nodes`next
      ensures Valid() && Queued() == old(Queued()) - {next} && next.prev == next.next == next
      ensures Values(lower.nodes) == if down then Removed(old(Values(lower.nodes)), k) else old(Values(lower.nodes))
      ensures Values(upper.nodes) == if down then old(Values(upper.nodes)) else Removed(old(Values(upper.nodes)), k)
    {
      Detach(next, down, k);
    }

    /** The neighbours the two look-ups report for the k-th request of a queue. */
    lemma Neighbours(q: Queue, k: nat)
      requires Valid() && (q == lower || q == upper) && k < |q.nodes|
      ensures LatterRequest(q.nodes[k]) == if k + 1 < |q.nodes| then q.nodes[k + 1] else null
      ensures FormerRequest(q.nodes[k]) == if k > 0 then q.nodes[k - 1] else null
    {
      var c := Chain(q.head, q.nodes);
      RingLinks(q.head, q.nodes, k + 1);
      assert c[k + 1] == q.nodes[k];
      assert forall i :: 0 <= i < |q.nodes| ==> c[i + 1] == q.nodes[i] && q.nodes[i] in q.nodes;
    }

    /** Former and latter undo each other wherever they are not null. */
    lemma FormerLatterInverse(rq: Node)
      requires Valid() && rq in Queued()
      ensures var next := LatterRequest(rq); next != null ==> next in Queued() && FormerRequest(next) == rq
      ensures var prev := FormerRequest(rq); prev != null ==> prev in Queued() && LatterRequest(prev) == rq
    {
      var q := if rq in lower.nodes then lower else upper;
      var k :| 0 <= k < |q.nodes| && q.nodes[k] == rq;
      Neighbours(q, k);
      if k + 1 < |q.nodes| {
        Neighbours(q, k + 1);
      }
      if k > 0 {
        Neighbours(q, k - 1);
      }
    }

    /** With ids for addresses, a request's value leads back to its place. */
    lemma PlaceOf(q: Queue, other: Queue, k: nat)
      requires Valid() && UniqueIds() && k < |q.nodes|
      requires (q == lower && other == upper) || (q == upper && other == lower)
      ensures Spec.Find(Values(q.nodes), q.nodes[k].Value()) == k
      ensures q.nodes[k].Value() in Values(q.nodes) && q.nodes[k].Value() !in Values(other.nodes)
    {
      var v := q.nodes[k].Value();
      assert Values(q.nodes)[k] == v;
      var j := Spec.Find(Values(q.nodes), v);
      assert q.nodes[j] in Queued() && q.nodes[k] in Queued();
      assert Chain(q.head, q.nodes)[j + 1] == q.nodes[j] && Chain(q.head, q.nodes)[k + 1] == q.nodes[k];
      forall i | 0 <= i < |other.nodes| ensures Values(other.nodes)[i] != v {
        assert other.nodes[i] in Queued();
      }
    }

    /** greedy_latter_request answers what the specification calls the latter request. */
    lemma LatterMatches(rq: Node)
      requires Valid() && UniqueIds() && rq in Queued()
      ensures Spec.Latter(View(), rq.Value()) ==
              if LatterRequest(rq) == null then None else Some(LatterRequest(rq).Value())
    {
      var q, other := if rq in lower.nodes then lower else upper, if rq in lower.nodes then upper else lower;
      var k :| 0 <= k < |q.nodes| && q.nodes[k] == rq;
      Neighbours(q, k);
      PlaceOf(q, other, k);
    }

    lemma Locate(rq: Node) returns (q: Queue, other: Queue, k: nat)
      requires Valid() && rq in Queued()
      ensures (q == lower && other == upper) || (q == upper && other == lower)
      ensures k < |q.nodes| && q.nodes[k] == rq
      ensures LatterRequest(rq) != null ==>
                k + 1 < |q.nodes| && LatterRequest(rq) == q.nodes[k + 1] && q.nodes[k + 1] != rq
    {
      q, other := if rq in lower.nodes then lower else upper, if rq in lower.nodes then upper else lower;
      k :| 0 <= k < |q.nodes| && q.nodes[k] == rq;
      Neighbours(q, k);
      if k + 1 < |q.nodes| {
        NodesDiffer(q.head, q.nodes, k, k + 1);
      }
    }

    /** What merging the k-th request of a queue with the next one means for the two queues. */
    lemma MergePlace(q: Queue, other: Queue, k: nat)
      requires Valid() && UniqueIds() && k + 1 < |q.nodes|
      requires (q == lower && other == upper) || (q == upper && other == lower)
      requires q.nodes[k].Value().Limit() == q.nodes[k + 1].pos
      ensures var s, r, next := View(), q.nodes[k].Value(), q.nodes[k + 1].Value();
              && Spec.MayMerge(s, r, next)
              && Spec.Merge(s, r, next) == if q == lower then s.(lower := Spec.MergeAt(s.lower, k))
                                           else s.(upper := Spec.MergeAt(s.upper, k))
    {
      PlaceOf(q, other, k);
    }

    /** The block layer extends `rq` over the request after it. */
    method Extend(rq: Node, next: Node, ghost q: Queue, ghost other: Queue, ghost k: nat)
      requires Valid()
      requires (q == lower && other == upper) || (q == upper && other == lower)
      requires k + 1 < |q.nodes| && q.nodes[k] == rq && q.nodes[k + 1] == next
      modifies rq`sectors
      ensures Valid()
      ensures Values(q.nodes) == var vs := old(Values(q.nodes)); vs[k := Spec.Absorb(vs[k], vs[k + 1])]
      ensures Values(other.nodes) == old(Values(other.nodes))
    {
      ghost var vs := Values(q.nodes);
      ghost var vs' := vs[k := Spec.Absorb(vs[k], vs[k + 1])];
      assert rq in q.nodes;
      rq.sectors := rq.sectors + next.sectors;
      SameValues(other.nodes);
      forall i | 0 <= i < |q.nodes| ensures Values(q.nodes)[i] == vs'[i] {
        if i < k {
          NodesDiffer(q.head, q.nodes, i, k);
        } else if i > k {
          NodesDiffer(q.head, q.nodes, k, i);
        }
      }
      assert Values(q.nodes) == vs';
    }

    /** The block layer extends `rq` over `next`, then greedy_merged_requests unlinks `next`. */
    method Join(rq: Node, next: Node, ghost q: Queue, ghost other: Queue, ghost k: nat)
      requires Valid()
      requires (q == lower && other == upper) || (q == upper && other == lower)
      requires k + 1 < |q.nodes| && q.nodes[k] == rq && q.nodes[k + 1] == next
      modifies rq`sectors
      modifies lower`nodes, lower.head`prev, lower.head`next, lower.nodes`prev, lower.nodes`next
      modifies upper`nodes, upper.head`prev, upper.head`next, upper.nodes`prev, upper.nodes`next
      ensures Valid() && Queued() == old(Queued()) - {next}
      ensures Values(q.nodes) == Spec.MergeAt(old(Values(q.nodes)), k)
      ensures Values(other.nodes) == old(Values(other.nodes))
    {
      ghost var vs := Values(q.nodes);
      assert rq in q.nodes;
      MergeIsRemoval(vs, k);
      Extend(rq, next, q, other, k);
      MergedRequests(rq, next, q == lower, k + 1);
    }

    /** What the block layer does to merge two queued requests that touch: it asks for the latter
        request, extends `rq` over it and reports the merge. */
    method AttemptMerge(rq: Node) returns (merged: bool, ghost next: Node?)
      requires Valid() && UniqueIds() && rq in Queued()
      modifies rq`sectors
      modifies lower`nodes, lower.head`prev, lower.head`next, lower.nodes`prev, lower.nodes`next
      modifies upper`nodes, upper.head`prev, upper.head`next, upper.nodes`prev, upper.nodes`next
      ensures Valid() && UniqueIds()
      ensures next == old(LatterRequest(rq))
      ensures merged <==> next != null && Spec.MayMerge(old(View()), old(rq.Value()), next.Value())
      ensures View() == if merged then Spec.Merge(old(View()), old(rq.Value()), next.Value()) else old(View())
      ensures Queued() == if merged then old(Queued()) - {next} else old(Queued())
    {
      var latter := LatterRequest(rq);
      next := latter;
      LatterMatches(rq);
      if latter == null || rq.pos + rq.sectors != latter.pos {
        return false, latter;
      }
      ghost var q, other, k := Locate(rq);
      MergePlace(q, other, k);
      ghost var nextValue := latter.Value();
      Join(rq, latter, q, other, k);
      assert latter.Value() == nextValue;
      return true, latter;
    }

    /** The two list_empty checks of greedy_exit_queue. */
    method MayExit() returns (ok: bool)
      requires Valid()
      ensures ok <==> View().Empty()
    {
      var lowerEmpty := lower.IsEmpty();
      var upperEmpty := upper.IsEmpty();
      ok := lowerEmpty && upperEmpty;
    }
  }
}
