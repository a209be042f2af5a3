/** The lists with a single-pointer head of src/list.h, on the heap. */
module Hlist {

  /** Where a pprev points: the slot that holds the pointer to its node. */
  datatype Slot = Null | Poison | FirstOf(head: HlistHead) | NextOf(node: HlistNode)

  class HlistHead {
    var first: HlistNode?

    constructor ()
      ensures Holds(this, [])
    {
      first := null;
    }
  }

  class HlistNode {
    var next: HlistNode?
    var pprev: Slot

    constructor ()
      ensures next == null && pprev == Null
    {
      next, pprev := null, Null;
    }
  }

  ghost function At(ns: seq<HlistNode>, i: nat): HlistNode? {
    if i < |ns| then ns[i] else null
  }

  ghost predicate Distinct(ns: seq<HlistNode>) {
    forall i, j | 0 <= i < j < |ns| :: ns[i] != ns[j]
  }

  /** Consecutive nodes: next leads forward, pprev back to that very next field. */
  ghost predicate Chain(ns: seq<HlistNode>)
    reads ns
  {
    forall i, j | 0 <= i && j == i + 1 && j < |ns| :: ns[i].next == ns[j] && ns[j].pprev == NextOf(ns[i])
  }

  /** The slot holds the pointer to the first of ns, which knows it; an empty ns means a null slot. */
  ghost predicate Anchored(p: Slot, ns: seq<HlistNode>)
    requires Usable(p)
    reads Owner(p), ns
  {
    Load(p) == At(ns, 0) && (ns != [] ==> ns[0].pprev == p)
  }

  ghost predicate Ended(ns: seq<HlistNode>)
    reads ns
  {
    ns != [] ==> ns[|ns| - 1].next == null
  }

  /** h is the null-terminated list of ns, and every pprev designates the slot pointing to its node. */
  ghost predicate Holds(h: HlistHead, ns: seq<HlistNode>)
    reads h, ns
  {
    Distinct(ns) && Chain(ns) && Anchored(FirstOf(h), ns) && Ended(ns)
  }

  ghost predicate Usable(p: Slot) {
    p.FirstOf? || p.NextOf?
  }

  ghost function Owner(p: Slot): object
    requires Usable(p)
  {
    if p.FirstOf? then p.head else p.node
  }

  /** *p */
  function Load(p: Slot): HlistNode?
    requires Usable(p)
    reads Owner(p)
  {
    if p.FirstOf? then p.head.first else p.node.next
  }

  /** *p = v */
  method Store(p: Slot, v: HlistNode?)
    requires Usable(p)
    modifies Owner(p)
    ensures Load(p) == v
    ensures p.NextOf? ==> p.node.pprev == old(p.node.pprev)
  {
    if p.FirstOf? {
      p.head.first := v;
    } else {
      p.node.next := v;
    }
  }

  /** In a well-formed list, following pprev leads to the slot that points back. */
  lemma SlotsPointBack(h: HlistHead, ns: seq<HlistNode>, i: nat)
    requires Holds(h, ns) && i < |ns|
    ensures Usable(ns[i].pprev) && Load(ns[i].pprev) == ns[i]
    ensures ns[i].next == At(ns, i + 1)
  {
    if i > 0 {
      assert ns[i - 1].next == ns[i];
    }
    if i + 1 < |ns| {
      assert ns[i].next == ns[i + 1];
    }
  }

  // ---------------------------------------------------------------------------
  // Lists in two parts

  /** The slot behind a. */
  ghost function SlotAfter(h: HlistHead, a: seq<HlistNode>): (p: Slot)
    ensures Usable(p)
  {
    if a == [] then FirstOf(h) else NextOf(a[|a| - 1])
  }

  ghost predicate Apart(a: seq<HlistNode>, b: seq<HlistNode>) {
    forall i, j | 0 <= i < |a| && 0 <= j < |b| :: a[i] != b[j]
  }

  lemma DistinctParts(a: seq<HlistNode>, b: seq<HlistNode>)
    ensures Distinct(a + b) <==> Distinct(a) && Distinct(b) && Apart(a, b)
  {
    if Distinct(a + b) {
      assert forall i | 0 <= i < |a| :: (a + b)[i] == a[i];
      assert forall i | 0 <= i < |b| :: (a + b)[|a| + i] == b[i];
    }
  }

  lemma SplitChain(a: seq<HlistNode>, b: seq<HlistNode>)
    requires Chain(a + b)
    ensures Chain(a) && Chain(b)
    ensures a != [] && b != [] ==> a[|a| - 1].next == b[0] && b[0].pprev == NextOf(a[|a| - 1])
  {
    assert forall i | 0 <= i < |a| :: (a + b)[i] == a[i];
    assert forall i | 0 <= i < |b| :: (a + b)[|a| + i] == b[i];
  }

  lemma JoinChain(a: seq<HlistNode>, b: seq<HlistNode>)
    requires Chain(a) && Chain(b)
    requires a != [] && b != [] ==> a[|a| - 1].next == b[0] && b[0].pprev == NextOf(a[|a| - 1])
    ensures Chain(a + b)
  {
  }

  lemma SplitList(h: HlistHead, a: seq<HlistNode>, b: seq<HlistNode>)
    requires Holds(h, a + b)
    ensures Chain(a) && Chain(b) && (a != [] ==> Anchored(FirstOf(h), a))
    ensures Anchored(SlotAfter(h, a), b) && Ended(b)
    ensures Distinct(a) && Distinct(b) && Apart(a, b)
  {
    SplitChain(a, b);
    DistinctParts(a, b);
    assert a == [] ==> a + b == b;
    assert b == [] ==> a + b == a;
  }

  lemma JoinList(h: HlistHead, a: seq<HlistNode>, b: seq<HlistNode>)
    requires Chain(a) && Chain(b) && Distinct(a + b)
    requires a != [] ==> Anchored(FirstOf(h), a)
    requires Anchored(SlotAfter(h, a), b)
    requires Ended(b)
    ensures Holds(h, a + b)
  {
    assert a == [] ==> a + b == b;
    assert b == [] ==> a + b == a;
    JoinChain(a, b);
  }

  /** A chain depends on neither the first node's pprev nor the last node's next. */
  twostate lemma ChainUnchanged(c: seq<HlistNode>)
    requires old(Chain(c))
    requires forall i | 0 <= i < |c| - 1 :: c[i].next == old(c[i].next)
    requires forall i | 1 <= i < |c| :: c[i].pprev == old(c[i].pprev)
    ensures Chain(c)
  {
  }

  // ---------------------------------------------------------------------------
  // Tests

  method Empty(h: HlistHead, ghost ns: seq<HlistNode>) returns (r: bool)
    requires Holds(h, ns)
    ensures r <==> ns == []
  {
    r := h.first == null;
  }

  method IsSingularNode(n: HlistNode, h: HlistHead, ghost g: HlistHead, ghost ns: seq<HlistNode>) returns (r: bool)
    requires Holds(g, ns) && n in ns
    ensures r <==> g == h && ns == [n]
  {
    ghost var i :| 0 <= i < |ns| && ns[i] == n;
    SlotsPointBack(g, ns, i);
    assert i > 0 ==> ns[i].pprev == NextOf(ns[i - 1]);
    r := n.next == null && n.pprev == FirstOf(h);
  }

  // ---------------------------------------------------------------------------
  // Mutators

  /** A list around one of its nodes. */
  lemma AroundNode(h: HlistHead, a: seq<HlistNode>, n: HlistNode, b: seq<HlistNode>)
    requires Holds(h, a + [n] + b)
    ensures Chain(a) && Chain([n] + b) && Chain(b) && Ended([n] + b) && (a != [] ==> Anchored(FirstOf(h), a))
    ensures n.pprev == SlotAfter(h, a) && Load(n.pprev) == n && n.next == At(b, 0) && Ended(b)
    ensures b != [] ==> b[0].pprev == NextOf(n)
    ensures Distinct(a + [n] + b) && Distinct(a + b) && Distinct(a) && Distinct(b) && Apart(a, b)
    ensures n !in a && n !in b
  {
    assert a + [n] + b == a + ([n] + b);
    SplitList(h, a, [n] + b);
    SplitChain([n], b);
    DistinctParts([n], b);
    DistinctParts(a, b);
    var t := [n] + b;
    assert t[0] == n && (b != [] ==> t[|b|] == b[|b| - 1]);
    assert forall i | 0 <= i < |b| :: t[i + 1] == b[i];
  }

  /** __hlist_del */
  method Unlink(n: HlistNode, ghost h: HlistHead, ghost a: seq<HlistNode>, ghost b: seq<HlistNode>)
    requires Holds(h, a + [n] + b)
    modifies h, a, b
    ensures Holds(h, a + b) && n.next == old(n.next) && n.pprev == old(n.pprev)
  {
    AroundNode(h, a, n, b);
    label before:
    var next, pprev := n.next, n.pprev;
    Store(pprev, next);
    if next != null {
      next.pprev := pprev;
    }
    ChainUnchanged@before(a);
    ChainUnchanged@before(b);
    JoinList(h, a, b);
  }

  method Del(n: HlistNode, ghost h: HlistHead, ghost a: seq<HlistNode>, ghost b: seq<HlistNode>)
    requires Holds(h, a + [n] + b)
    modifies n, h, a, b
    ensures Holds(h, a + b) && n.next == null && n.pprev == Poison
  {
    AroundNode(h, a, n, b);
    Unlink(n, h, a, b);
    n.next := null;
    n.pprev := Poison;
  }

  /** hlist_del_init: a node that is on no list is left alone. */
  method DelInit(n: HlistNode, ghost h: HlistHead, ghost a: seq<HlistNode>, ghost b: seq<HlistNode>)
    requires if n.pprev == Null then Holds(h, a + b) && n !in a + b else Holds(h, a + [n] + b)
    modifies n, h, a, b
    ensures Holds(h, a + b) && n.pprev == Null
    ensures n.next == if old(n.pprev) == Null then old(n.next) else null
  {
    if n.pprev != Null {
      AroundNode(h, a, n, b);
      Unlink(n, h, a, b);
      n.next, n.pprev := null, Null;
    }
  }

  method AddHead(n: HlistNode, h: HlistHead, ghost ns: seq<HlistNode>)
    requires Holds(h, ns) && n !in ns
    modifies n, h, ns
    ensures Holds(h, [n] + ns)
  {
    label before:
    var first := h.first;
    n.next := first;
    if first != null {
      first.pprev := NextOf(n);
    }
    h.first := n;
    n.pprev := FirstOf(h);
    ChainUnchanged@before(ns);
    DistinctParts([n], ns);
    JoinList(h, [n], ns);
  }

  method AddBefore(n: HlistNode, next: HlistNode, ghost h: HlistHead, ghost a: seq<HlistNode>, ghost b: seq<HlistNode>)
    requires Holds(h, a + [next] + b) && n !in a + [next] + b
    modifies n, h, a, next
    ensures Holds(h, a + [n, next] + b)
  {
    AroundNode(h, a, next, b);
    DistinctInsert(a, n, [next] + b);
    assert a + [next] + b == a + ([next] + b);
    label before:
    n.pprev := next.pprev;
    n.next := next;
    next.pprev := NextOf(n);
    Store(n.pprev, n);
    ChainUnchanged@before(a);
    ChainUnchanged@before([next] + b);
    JoinChain([n], [next] + b);
    JoinList(h, a, [n] + ([next] + b));
    assert a + ([n] + ([next] + b)) == a + [n, next] + b;
  }

  lemma DistinctInsert(a: seq<HlistNode>, n: HlistNode, b: seq<HlistNode>)
    requires Distinct(a + b) && n !in a + b
    ensures Distinct(a + ([n] + b)) && n !in a && n !in b && Distinct(a) && Distinct(b) && Apart(a, b)
  {
    DistinctParts(a, b);
    assert forall i | 0 <= i < |a| :: a[i] == (a + b)[i];
    assert forall i | 0 <= i < |b| :: b[i] == (a + b)[|a| + i];
    DistinctParts([n], b);
    DistinctParts(a, [n] + b);
  }

  method AddBehind(n: HlistNode, prev: HlistNode, ghost h: HlistHead, ghost a: seq<HlistNode>, ghost b: seq<HlistNode>)
    requires Holds(h, a + [prev] + b) && n !in a + [prev] + b
    modifies n, prev, b
    ensures Holds(h, a + [prev, n] + b)
  {
    SplitList(h, a + [prev], b);
    DistinctInsert(a + [prev], n, b);
    label before:
    n.next := prev.next;
    prev.next := n;
    n.pprev := NextOf(prev);
    if n.next != null {
      n.next.pprev := NextOf(n);
    }
    ghost var c := a + [prev];
    assert c[|a|] == prev;
    ChainUnchanged@before(c);
    ChainUnchanged@before(b);
    JoinChain([n], b);
    JoinList(h, c, [n] + b);
    assert c + ([n] + b) == a + [prev, n] + b;
  }

  method MoveList(from: HlistHead, to: HlistHead, ghost ns: seq<HlistNode>)
    requires Holds(from, ns) && from != to
    modifies from, to, ns
    ensures Holds(to, ns) && Holds(from, [])
  {
    to.first := from.first;
    if to.first != null {
      to.first.pprev := FirstOf(to);
    }
    from.first := null;
  }
}
