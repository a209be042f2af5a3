/** The circular doubly linked lists of src/list.h, on the heap. */
module List {

  /** struct list_head; a null link stands for the poison values that list_del leaves behind. */
  class ListHead {
    var next: ListHead?
    var prev: ListHead?

    /** A node initialised by INIT_LIST_HEAD. */
    constructor ()
      ensures Ring(this, [])
    {
      next := this;
      prev := this;
    }
  }

  ghost predicate Linked(x: ListHead, y: ListHead)
    reads x, y
  {
    x.next == y && y.prev == x
  }

  /** Consecutive nodes point at each other. */
  ghost predicate Chain(c: seq<ListHead>)
    reads c
  {
    forall i, j | 0 <= i && j == i + 1 && j < |c| :: c[i].next == c[j] && c[j].prev == c[i]
  }

  ghost predicate Distinct(s: seq<ListHead>) {
    forall i, j | 0 <= i < j < |s| :: s[i] != s[j]
  }

  /** Distinct nodes linked in a circle. */
  ghost predicate Cycle(ns: seq<ListHead>)
    requires ns != []
    reads ns
  {
    Distinct(ns) && Chain(ns + [ns[0]])
  }

  /** The well-formed list with the given head and entries. */
  ghost predicate Ring(head: ListHead, es: seq<ListHead>)
    reads head, es
  {
    Cycle([head] + es)
  }

  ghost predicate Disjoint(s: seq<ListHead>, t: seq<ListHead>) {
    forall i, j | 0 <= i < |s| && 0 <= j < |t| :: s[i] != t[j]
  }

  // ---------------------------------------------------------------------------
  // Distinctness

  lemma OccursOnce(s: seq<ListHead>, x: ListHead)
    requires Distinct(s)
    ensures multiset(s)[x] <= 1
  {
    if s == [] {
    } else {
      OccursOnce(s[1..], x);
      assert s == [s[0]] + s[1..];
      assert s[0] !in s[1..];
    }
  }

  /** Taking nodes away and reordering keeps them distinct. */
  lemma FewerDistinct(s: seq<ListHead>, t: seq<ListHead>)
    requires Distinct(s) && multiset(t) <= multiset(s)
    ensures Distinct(t)
  {
    forall i, j | 0 <= i < j < |t|
      ensures t[i] != t[j]
    {
      OccursOnce(s, t[i]);
      assert t == t[..i] + [t[i]] + t[i + 1..j] + [t[j]] + t[j + 1..];
    }
  }

  lemma DistinctUnion(s: seq<ListHead>, t: seq<ListHead>)
    ensures Distinct(s + t) <==> Distinct(s) && Distinct(t) && Disjoint(s, t)
  {
    if Distinct(s + t) {
      assert forall i | 0 <= i < |s| :: (s + t)[i] == s[i];
      assert forall i | 0 <= i < |t| :: (s + t)[|s| + i] == t[i];
    }
  }

  lemma HeadOnce(x: ListHead, rest: seq<ListHead>)
    requires Distinct([x] + rest)
    ensures x !in rest && Distinct(rest)
  {
    assert ([x] + rest)[0] == x;
    assert forall i | 0 <= i < |rest| :: rest[i] == ([x] + rest)[i + 1];
  }

  // ---------------------------------------------------------------------------
  // Framing

  /** A circle none of whose nodes changed is still one. */
  twostate lemma CycleUnchanged(ns: seq<ListHead>)
    requires ns != [] && old(Cycle(ns))
    requires forall i | 0 <= i < |ns| :: unchanged(ns[i])
    ensures Cycle(ns)
  {
  }

  /** The links inside a chain: neither the first node's prev nor the last node's next. */
  twostate predicate InnerUnchanged(c: seq<ListHead>)
    reads c
  {
    && (forall i | 0 <= i < |c| - 1 :: c[i].next == old(c[i].next))
    && (forall i | 1 <= i < |c| :: c[i].prev == old(c[i].prev))
  }

  twostate lemma ChainUnchanged(c: seq<ListHead>)
    requires old(Chain(c)) && InnerUnchanged(c)
    ensures Chain(c)
  {
  }

  // ---------------------------------------------------------------------------
  // Any node of a circle can be taken as its head

  lemma RotateCycle(a: seq<ListHead>, b: seq<ListHead>)
    requires a != [] && b != [] && Cycle(a + b)
    ensures Cycle(b + a)
  {
    FewerDistinct(a + b, b + a);
    var c, d := a + b + [a[0]], b + a + [b[0]];
    assert (a + b)[0] == a[0] && (b + a)[0] == b[0];
    forall i, j | 0 <= i && j == i + 1 && j < |d|
      ensures d[i].next == d[j] && d[j].prev == d[i]
    {
      if j <= |b| {
        assert d[i] == c[|a| + i] && d[j] == c[|a| + j];
      } else {
        assert d[i] == c[i - |b|] && d[j] == c[j - |b|];
      }
    }
  }

  lemma RingAsCycle(head: ListHead, a: seq<ListHead>, x: ListHead, b: seq<ListHead>)
    requires Ring(head, a + [x] + b)
    ensures Cycle([x] + (b + [head] + a))
  {
    assert [head] + (a + [x] + b) == ([head] + a) + ([x] + b);
    RotateCycle([head] + a, [x] + b);
    assert ([x] + b) + ([head] + a) == [x] + (b + [head] + a);
  }

  lemma CycleAsRing(b: seq<ListHead>, head: ListHead, a: seq<ListHead>)
    requires Cycle(b + [head] + a)
    ensures Ring(head, a + b)
  {
    if b == [] {
      assert b + [head] + a == [head] + (a + b);
    } else {
      assert b + [head] + a == b + ([head] + a);
      RotateCycle(b, [head] + a);
      assert ([head] + a) + b == [head] + (a + b);
    }
  }

  /** A list with entries, seen from its last entry. */
  lemma FromLast(head: ListHead, es: seq<ListHead>)
    requires Ring(head, es) && es != []
    ensures var rest := [head] + es[..|es| - 1]; Ring(es[|es| - 1], rest)
    ensures head.prev == es[|es| - 1] && es[|es| - 1].next == head
  {
    var init, last := es[..|es| - 1], es[|es| - 1];
    var c := [head] + es + [head];
    assert c[|es|].next == c[|es| + 1] && c[|es| + 1].prev == c[|es|];
    assert [head] + es == ([head] + init) + [last];
    RotateCycle([head] + init, [last]);
  }

  lemma FromHead(last: ListHead, ls: seq<ListHead>, head: ListHead, init: seq<ListHead>)
    requires Ring(last, ls + ([head] + init))
    ensures Ring(head, init + [last] + ls)
  {
    assert [last] + (ls + ([head] + init)) == ([last] + ls) + [head] + init;
    CycleAsRing([last] + ls, head, init);
    assert init + ([last] + ls) == init + [last] + ls;
  }

  /** The last of a, or x when a is empty. */
  ghost function Before(x: ListHead, a: seq<ListHead>): ListHead {
    if a == [] then x else a[|a| - 1]
  }

  /** The first of b, or x when b is empty. */
  ghost function After(b: seq<ListHead>, x: ListHead): ListHead {
    if b == [] then x else b[0]
  }

  // ---------------------------------------------------------------------------
  // Tests

  method Empty(head: ListHead, ghost es: seq<ListHead>) returns (r: bool)
    requires Ring(head, es)
    ensures r <==> es == []
  {
    ghost var c := [head] + es + [head];
    assert c[0].next == c[1];
    r := head.next == head;
  }

  method EmptyCareful(head: ListHead, ghost es: seq<ListHead>) returns (r: bool)
    requires Ring(head, es)
    ensures r <==> es == []
  {
    ghost var c := [head] + es + [head];
    assert c[0].next == c[1] && c[|es| + 1].prev == c[|es|];
    var next := head.next;
    r := next == head && next == head.prev;
  }

  method IsLast(x: ListHead, head: ListHead, ghost es: seq<ListHead>) returns (r: bool)
    requires Ring(head, es) && x in es
    ensures r <==> es[|es| - 1] == x
  {
    ghost var c := [head] + es + [head];
    ghost var i :| 0 <= i < |es| && es[i] == x;
    assert c[i + 1].next == c[i + 2];
    HeadOnce(head, es);
    assert i + 1 < |es| ==> es[i] != es[|es| - 1] by { HeadOnce(head, es); }
    r := x.next == head;
  }

  method IsSingular(head: ListHead, ghost es: seq<ListHead>) returns (r: bool)
    requires Ring(head, es)
    ensures r <==> |es| == 1
  {
    ghost var c := [head] + es + [head];
    assert c[0].next == c[1] && c[|es| + 1].prev == c[|es|];
    var empty := Empty(head, es);
    r := !empty && head.next == head.prev;
  }

  // ---------------------------------------------------------------------------
  // Adding and deleting one node

  method Init(list: ListHead)
    modifies list
    ensures Ring(list, [])
  {
    list.next := list;
    list.prev := list;
  }

  /** __list_add between the neighbours prev (the head of the circle) and next. */
  method InsertAfter(node: ListHead, prev: ListHead, next: ListHead, ghost rest: seq<ListHead>)
    requires Ring(prev, rest) && node !in [prev] + rest && next == prev.next
    modifies node, prev`next, next`prev
    ensures Ring(prev, [node] + rest)
  {
    ghost var c := [prev] + rest + [prev];
    assert c[0].next == c[1];
    assert Distinct([prev] + ([node] + rest)) by {
      FewerDistinct([node] + ([prev] + rest), [prev] + ([node] + rest));
    }
    next.prev := node;
    node.next := next;
    node.prev := prev;
    prev.next := node;
    assert [prev] + ([node] + rest) + [prev] == [prev, node] + c[1..];
  }

  method Add(node: ListHead, head: ListHead, ghost es: seq<ListHead>)
    requires Ring(head, es) && node !in [head] + es
    modifies node, head, es
    ensures Ring(head, [node] + es)
  {
    ghost var c := [head] + es + [head];
    assert c[0].next == c[1];
    InsertAfter(node, head, head.next, es);
  }

  method AddTail(node: ListHead, head: ListHead, ghost es: seq<ListHead>)
    requires Ring(head, es) && node !in [head] + es
    modifies node, head, es
    ensures Ring(head, es + [node])
  {
    ghost var rest := if es == [] then [] else [head] + es[..|es| - 1];
    ghost var c := [head] + es + [head];
    assert c[0].next == c[1] && c[|es| + 1].prev == c[|es|];
    if es != [] {
      FromLast(head, es);
    }
    InsertAfter(node, head.prev, head, rest);
    if es == [] {
      assert [head] + ([node] + rest) == [head] + (es + [node]);
    } else {
      FromHead(es[|es| - 1], [node], head, es[..|es| - 1]);
      assert es[..|es| - 1] + [es[|es| - 1]] + [node] == es + [node];
    }
  }

  /** __list_del_entry: the other nodes close the circle; a node alone in its circle stays as it is. */
  method DeleteEntry(node: ListHead, ghost rest: seq<ListHead>)
    requires Cycle([node] + rest)
    modifies node, rest
    ensures if rest == [] then Cycle([node]) else Cycle(rest)
    ensures rest != [] ==> node.next == old(node.next) && node.prev == old(node.prev)
  {
    ghost var c := [node] + rest + [node];
    assert c[0].next == c[1] && c[|rest| + 1].prev == c[|rest|];
    HeadOnce(node, rest);
    var prev, next := node.prev, node.next;
    next.prev := prev;
    prev.next := next;
    assert rest != [] ==> rest + [rest[0]] == c[1..|rest| + 1] + [c[1]];
  }

  method Del(node: ListHead, ghost rest: seq<ListHead>)
    requires Cycle([node] + rest)
    modifies node, rest
    ensures rest != [] ==> Cycle(rest)
    ensures node.next == null == node.prev
  {
    HeadOnce(node, rest);
    DeleteEntry(node, rest);
    node.next := null;
    node.prev := null;
  }

  method DelInit(node: ListHead, ghost rest: seq<ListHead>)
    requires Cycle([node] + rest)
    modifies node, rest
    ensures rest != [] ==> Cycle(rest)
    ensures Ring(node, [])
  {
    HeadOnce(node, rest);
    DeleteEntry(node, rest);
    Init(node);
  }

  /** list_replace: the new node takes over the whole circle, also an empty one. */
  method Replace(out: ListHead, node: ListHead, ghost rest: seq<ListHead>)
    requires Cycle([out] + rest) && node !in [out] + rest
    modifies out, node, rest
    ensures Cycle([node] + rest)
  {
    ghost var c := [out] + rest + [out];
    assert c[0].next == c[1] && c[|rest| + 1].prev == c[|rest|];
    HeadOnce(out, rest);
    assert Distinct([node] + rest) by { DistinctUnion([node], rest); }
    node.next := out.next;
    node.next.prev := node;
    node.prev := out.prev;
    node.prev.next := node;
    ghost var d := [node] + rest + [node];
    assert d[0].next == d[1] && d[|rest| + 1].prev == d[|rest|] && d[1].prev == node && d[|rest|].next == node;
    assert forall i | 1 <= i <= |rest| :: d[i] == c[i];
  }

  method ReplaceInit(out: ListHead, node: ListHead, ghost rest: seq<ListHead>)
    requires Cycle([out] + rest) && node !in [out] + rest
    modifies out, node, rest
    ensures Cycle([node] + rest) && Ring(out, [])
  {
    HeadOnce(out, rest);
    Replace(out, node, rest);
    assert out !in [node] + rest + [node];
    Init(out);
  }

  // ---------------------------------------------------------------------------
  // Moving one node

  /**
   * Where a moved node x comes from: the list itself, with entries u before and v behind x, or a circle
   * apart from the list, where u are the other nodes of x's circle (none if unlinked) and v the entries.
   */
  datatype Origin = SameList(u: seq<ListHead>, v: seq<ListHead>) | Elsewhere(u: seq<ListHead>, v: seq<ListHead>)

  ghost predicate Movable(x: ListHead, head: ListHead, from: Origin)
    reads x, head, from.u, from.v
  {
    if from.SameList? then Ring(head, from.u + [x] + from.v)
    else Cycle([x] + from.u) && Ring(head, from.v) && Disjoint([x] + from.u, [head] + from.v)
  }

  /** The entries behind head once x has been unlinked. */
  ghost function Remaining(from: Origin): seq<ListHead> {
    if from.SameList? then from.u + from.v else from.v
  }

  /** The circle that x left behind stays one. */
  ghost predicate LeftBehind(from: Origin)
    reads from.u
  {
    from.Elsewhere? && from.u != [] ==> Cycle(from.u)
  }

  /** The unlinking half of list_move and list_move_tail. */
  method Unlink(x: ListHead, head: ListHead, ghost from: Origin)
    requires Movable(x, head, from)
    modifies x, head, from.u, from.v
    ensures Ring(head, Remaining(from)) && x !in [head] + Remaining(from)
    ensures LeftBehind(from)
  {
    ghost var rest := if from.SameList? then from.v + [head] + from.u else from.u;
    if from.SameList? {
      RingAsCycle(head, from.u, x, from.v);
    }
    HeadOnce(x, rest);
    if from.Elsewhere? {
      Apart(x, head, from);
    }
    label before:
    DeleteEntry(x, rest);
    if from.SameList? {
      CycleAsRing(from.v, head, from.u);
    } else {
      CycleUnchanged@before([head] + from.v);
    }
  }

  lemma Apart(x: ListHead, head: ListHead, from: Origin)
    requires Movable(x, head, from) && from.Elsewhere?
    ensures forall i | 0 <= i < |from.u| :: from.u[i] != x && from.u[i] != head && from.u[i] !in from.v
    ensures x != head && x !in from.v
  {
    assert ([x] + from.u)[0] == x;
    HeadOnce(x, from.u);
    assert forall i | 0 <= i < |from.u| :: from.u[i] == ([x] + from.u)[i + 1];
    assert ([head] + from.v)[0] == head;
    assert forall i | 0 <= i < |from.v| :: from.v[i] == ([head] + from.v)[i + 1];
  }

  method Move(x: ListHead, head: ListHead, ghost from: Origin)
    requires Movable(x, head, from)
    modifies x, head, from.u, from.v
    ensures Ring(head, [x] + Remaining(from)) && LeftBehind(from)
  {
    if from.Elsewhere? {
      Apart(x, head, from);
    }
    Unlink(x, head, from);
    label unlinked:
    Add(x, head, Remaining(from));
    if from.Elsewhere? && from.u != [] {
      CycleUnchanged@unlinked(from.u);
    }
  }

  method MoveTail(x: ListHead, head: ListHead, ghost from: Origin)
    requires Movable(x, head, from)
    modifies x, head, from.u, from.v
    ensures Ring(head, Remaining(from) + [x]) && LeftBehind(from)
  {
    if from.Elsewhere? {
      Apart(x, head, from);
    }
    Unlink(x, head, from);
    label unlinked:
    AddTail(x, head, Remaining(from));
    if from.Elsewhere? && from.u != [] {
      CycleUnchanged@unlinked(from.u);
    }
  }

  method RotateLeft(head: ListHead, ghost es: seq<ListHead>)
    requires Ring(head, es)
    modifies head, es
    ensures Ring(head, if es == [] then [] else es[1..] + [es[0]])
  {
    var empty := Empty(head, es);
    if !empty {
      ghost var c := [head] + es + [head];
      assert c[0].next == c[1];
      var first := head.next;
      ghost var from := SameList([], es[1..]);
      assert [] + [first] + es[1..] == es;
      MoveTail(first, head, from);
      assert Remaining(from) == es[1..];
    }
  }

  // ---------------------------------------------------------------------------
  // Chains as building blocks

  lemma SplitChain(a: seq<ListHead>, b: seq<ListHead>)
    requires Chain(a + b)
    ensures Chain(a) && Chain(b)
    ensures a != [] && b != [] ==> a[|a| - 1].next == b[0] && b[0].prev == a[|a| - 1]
  {
    var c := a + b;
    assert forall i | 0 <= i < |a| :: c[i] == a[i];
    assert forall i | 0 <= i < |b| :: c[|a| + i] == b[i];
  }

  lemma JoinChains(a: seq<ListHead>, b: seq<ListHead>)
    requires Chain(a) && Chain(b)
    requires a != [] && b != [] ==> a[|a| - 1].next == b[0] && b[0].prev == a[|a| - 1]
    ensures Chain(a + b)
  {
  }

  /** Chains that follow each other around the circle make a ring. */
  lemma RingFromChains(head: ListHead, a: seq<ListHead>, b: seq<ListHead>)
    requires Distinct([head] + (a + b)) && Chain([head] + a) && Chain(b)
    requires Linked(Before(head, a), After(b, head))
    requires Linked(Before(Before(head, a), b), head)
    ensures Ring(head, a + b)
  {
    JoinChains([head] + a, b);
    JoinChains([head] + a + b, [head]);
    assert [head] + a + b + [head] == [head] + (a + b) + [head];
  }

  lemma ChainsFromRing(head: ListHead, a: seq<ListHead>, b: seq<ListHead>)
    requires Ring(head, a + b)
    ensures Chain([head] + a) && Chain(b) && Distinct([head] + a) && Distinct(b) && Disjoint([head] + a, b)
    ensures Linked(Before(head, a), After(b, head)) && Linked(Before(Before(head, a), b), head)
  {
    assert [head] + (a + b) + [head] == [head] + a + (b + [head]);
    SplitChain([head] + a, b + [head]);
    SplitChain(b, [head]);
    assert [head] + (a + b) == [head] + a + b;
    DistinctUnion([head] + a, b);
  }

  lemma Corners(head: ListHead, a: seq<ListHead>, b: seq<ListHead>)
    requires Distinct([head] + (a + b))
    ensures Distinct([head] + a) && Distinct(b) && Disjoint([head] + a, b)
    ensures forall i | 0 <= i < |[head] + a| - 1 :: ([head] + a)[i] != Before(head, a)
    ensures forall i | 1 <= i < |[head] + a| :: ([head] + a)[i] != After(b, head)
    ensures forall i | 0 <= i < |b| :: b[i] != Before(head, a) && b[i] != head
  {
    assert [head] + (a + b) == [head] + a + b;
    DistinctUnion([head] + a, b);
    assert ([head] + a)[|a|] == Before(head, a) && ([head] + a)[0] == head;
  }

  lemma StretchDistinct(head: ListHead, a: seq<ListHead>, seg: seq<ListHead>, b: seq<ListHead>)
    requires Distinct([head] + (a + (seg + b)))
    ensures Distinct([head] + (a + b)) && Distinct(seg) && Disjoint(seg, [head] + (a + b))
    ensures forall i | 0 <= i < |seg| :: seg[i] != Before(head, a) && seg[i] != After(b, head)
  {
    var t := [head] + (a + b);
    FewerDistinct([head] + (a + (seg + b)), seg + t);
    DistinctUnion(seg, t);
    assert t[|a|] == Before(head, a) && (if b == [] then t[0] else t[|a| + 1]) == After(b, head);
  }

  /** A stretch of a list: three chains, linked at their ends, without a node in common. */
  lemma StretchFacts(head: ListHead, a: seq<ListHead>, seg: seq<ListHead>, b: seq<ListHead>)
    requires Ring(head, a + (seg + b)) && seg != []
    ensures Chain([head] + a) && Chain(seg) && Chain(b)
    ensures Distinct([head] + (a + b)) && Distinct(seg) && Disjoint(seg, [head] + (a + b))
    ensures Linked(Before(head, a), seg[0]) && Linked(seg[|seg| - 1], After(b, head))
    ensures Linked(Before(seg[|seg| - 1], b), head)
    ensures forall i | 0 <= i < |seg| :: seg[i] != Before(head, a) && seg[i] != After(b, head)
  {
    StretchDistinct(head, a, seg, b);
    ChainsFromRing(head, a, seg + b);
    SplitChain(seg, b);
  }

  /** Takes a stretch out of a list; the stretch keeps its inner links. */
  method UnlinkStretch(head: ListHead, first: ListHead, last: ListHead,
                       ghost a: seq<ListHead>, ghost seg: seq<ListHead>, ghost b: seq<ListHead>)
    requires Ring(head, a + (seg + b)) && seg != [] && first == seg[0] && last == seg[|seg| - 1]
    modifies head, a, b
    ensures Ring(head, a + b) && Chain(seg) && Disjoint(seg, [head] + (a + b)) && Distinct(seg)
  {
    StretchFacts(head, a, seg, b);
    Corners(head, a, b);
    assert [head] + (a + b) == [head] + a + b;
    label before:
    first.prev.next := last.next;
    last.next.prev := first.prev;
    ChainUnchanged@before([head] + a);
    ChainUnchanged@before(b);
    ChainUnchanged@before(seg);
    RingFromChains(head, a, b);
  }

  /** Links a loose stretch in front of the head. */
  method AppendStretch(head: ListHead, first: ListHead, last: ListHead,
                       ghost es: seq<ListHead>, ghost seg: seq<ListHead>)
    requires Ring(head, es) && Chain(seg) && Distinct(seg) && Disjoint(seg, [head] + es)
    requires seg != [] && first == seg[0] && last == seg[|seg| - 1]
    modifies head, es, seg
    ensures Ring(head, es + seg)
  {
    assert es + [] == es;
    ChainsFromRing(head, es, []);
    assert Distinct([head] + (es + seg)) by {
      DistinctUnion([head] + es, seg);
      assert [head] + es + seg == [head] + (es + seg);
    }
    Corners(head, es, seg);
    label before:
    head.prev.next := first;
    first.prev := head.prev;
    last.next := head;
    head.prev := last;
    ChainUnchanged@before([head] + es);
    ChainUnchanged@before(seg);
    RingFromChains(head, es, seg);
  }

  /** list_bulk_move_tail: a stretch moves to the end, also when it is at the end already. */
  method BulkMoveTail(head: ListHead, first: ListHead, last: ListHead,
                      ghost a: seq<ListHead>, ghost seg: seq<ListHead>, ghost b: seq<ListHead>)
    requires Ring(head, a + seg + b) && seg != [] && first == seg[0] && last == seg[|seg| - 1]
    modifies head, a, seg, b
    ensures Ring(head, a + b + seg)
  {
    assert a + seg + b == a + (seg + b);
    UnlinkStretch(head, first, last, a, seg, b);
    AppendStretch(head, first, last, a + b, seg);
  }

  // ---------------------------------------------------------------------------
  // Cutting and splicing

  lemma RingFromChain(head: ListHead, x: seq<ListHead>)
    requires Distinct([head] + x) && Chain(x)
    requires Linked(head, After(x, head))
    requires Linked(Before(head, x), head)
    ensures Ring(head, x)
  {
    assert [head] + ([] + x) == [head] + x;
    assert [] + x == x;
    RingFromChains(head, [], x);
  }

  /** The nodes a cut touches: the first part x, the rest b, and the new head. */
  lemma CutFacts(list: ListHead, head: ListHead, x: seq<ListHead>, b: seq<ListHead>)
    requires Ring(head, x + b) && x != [] && list !in [head] + (x + b)
    ensures Chain(x) && Chain(b) && Distinct([list] + x) && Distinct([head] + b) && Distinct(x) && Distinct(b)
    ensures Linked(head, x[0]) && Linked(x[|x| - 1], After(b, head)) && Linked(Before(x[|x| - 1], b), head)
    ensures forall i | 0 <= i < |x| :: x[i] != list && x[i] != head && x[i] != After(b, head)
    ensures forall i, j | 0 <= i < |x| && 0 <= j < |b| :: x[i] != b[j]
    ensures forall i | 0 <= i < |b| :: b[i] != list && b[i] != head
  {
    assert [] + (x + b) == x + b && [] + b == b;
    StretchFacts(head, [], x, b);
    var t := [head] + b;
    assert t[0] == head && forall i | 0 <= i < |b| :: t[i + 1] == b[i];
    HeadOnce(head, b);
    DistinctUnion([list], x);
  }

  /** __list_cut_position: everything up to and including entry moves to list. */
  method CutAt(list: ListHead, head: ListHead, entry: ListHead, ghost x: seq<ListHead>, ghost b: seq<ListHead>)
    requires Ring(head, x + b) && x != [] && entry == x[|x| - 1] && list !in [head] + (x + b)
    modifies list, head, x, b
    ensures Ring(list, x) && Ring(head, b)
  {
    CutFacts(list, head, x, b);
    label before:
    var newFirst := entry.next;
    list.next := head.next;
    list.next.prev := list;
    list.prev := entry;
    entry.next := list;
    head.next := newFirst;
    newFirst.prev := head;
    ChainUnchanged@before(x);
    ChainUnchanged@before(b);
    RingFromChain(list, x);
    RingFromChain(head, b);
  }

  /**
   * list_cut_position. With entry the head nothing is cut, with head empty not even list is touched,
   * and an entry that is not the single one of a singular list is ignored.
   */
  method CutPosition(list: ListHead, head: ListHead, entry: ListHead, ghost x: seq<ListHead>, ghost b: seq<ListHead>)
    requires Ring(head, x + b) && list !in [head] + (x + b)
    requires if x == [] then entry == head || (|b| <= 1 && entry !in b) else entry == x[|x| - 1]
    modifies list, head, x, b
    ensures Ring(head, b)
    ensures if x == [] && (b == [] || entry != head) then list.next == old(list.next) && list.prev == old(list.prev)
            else Ring(list, x)
  {
    var empty := Empty(head, x + b);
    var singular := IsSingular(head, x + b);
    ghost var c := [head] + (x + b) + [head];
    assert c[0].next == c[1];
    assert x == [] ==> x + b == b;
    if x != [] {
      HeadOnce(head, x + b);
      assert entry == (x + b)[|x| - 1];
    }
    if empty {
      return;
    }
    if singular && head.next != entry && head != entry {
      return;
    }
    if entry == head {
      label before:
      Init(list);
      CycleUnchanged@before([head] + b);
    } else {
      CutAt(list, head, entry, x, b);
    }
  }

  /** list_cut_before: everything in front of entry, or all when entry is the head, moves to list. */
  method CutBefore(list: ListHead, head: ListHead, entry: ListHead, ghost x: seq<ListHead>, ghost b: seq<ListHead>)
    requires Ring(head, x + b) && entry == After(b, head) && list !in [head] + (x + b)
    modifies list, head, x, b
    ensures Ring(list, x) && Ring(head, b)
  {
    ghost var c := [head] + (x + b) + [head];
    assert c[0].next == c[1];
    assert x == [] ==> x + b == b;
    if x != [] {
      CutFacts(list, head, x, b);
    }
    label before:
    if head.next == entry {
      Init(list);
      CycleUnchanged@before([head] + b);
      return;
    }
    list.next := head.next;
    list.next.prev := list;
    list.prev := entry.prev;
    list.prev.next := list;
    head.next := entry;
    entry.prev := head;
    ChainUnchanged@before(x);
    ChainUnchanged@before(b);
    RingFromChain(list, x);
    RingFromChain(head, b);
  }

  /** __list_splice: the entries of list go behind prev; list itself is left as it is. */
  method SpliceAfter(list: ListHead, prev: ListHead, next: ListHead, ghost ls: seq<ListHead>, ghost rest: seq<ListHead>)
    requires Ring(list, ls) && Ring(prev, rest) && Disjoint([list] + ls, [prev] + rest)
    requires ls != [] && next == prev.next
    modifies prev, ls, rest
    ensures Ring(prev, ls + rest)
  {
    SpliceFacts(list, prev, ls, rest);
    SpliceDistinct(list, prev, ls, rest);
    label before:
    var first, last := list.next, list.prev;
    first.prev := prev;
    prev.next := first;
    last.next := next;
    next.prev := last;
    ChainUnchanged@before(ls);
    ChainUnchanged@before(rest);
    JoinChains([prev], ls);
    RingFromChains(prev, ls, rest);
  }

  lemma SpliceDistinct(list: ListHead, prev: ListHead, ls: seq<ListHead>, rest: seq<ListHead>)
    requires Distinct([list] + ls) && Distinct([prev] + rest) && Disjoint([list] + ls, [prev] + rest)
    ensures Distinct([prev] + (ls + rest)) && Distinct(ls) && Distinct(rest)
    ensures forall i | 0 <= i < |ls| :: ls[i] != prev && ls[i] != list
    ensures forall i, j | 0 <= i < |ls| && 0 <= j < |rest| :: ls[i] != rest[j]
    ensures forall i | 0 <= i < |rest| :: rest[i] != prev
  {
    HeadOnce(list, ls);
    HeadOnce(prev, rest);
    assert ([prev] + rest)[0] == prev;
    assert forall i | 0 <= i < |ls| :: ls[i] == ([list] + ls)[i + 1];
    assert forall i | 0 <= i < |rest| :: rest[i] == ([prev] + rest)[i + 1];
    assert Disjoint(ls, rest);
    DistinctUnion(ls, rest);
    DistinctUnion([prev], ls + rest);
  }

  lemma SpliceFacts(list: ListHead, prev: ListHead, ls: seq<ListHead>, rest: seq<ListHead>)
    requires Ring(list, ls) && Ring(prev, rest) && ls != []
    ensures Chain(ls) && Chain(rest)
    ensures list.next == ls[0] && list.prev == ls[|ls| - 1]
    ensures Linked(prev, After(rest, prev)) && Linked(Before(prev, rest), prev)
  {
    assert [] + ls == ls && [] + rest == rest;
    ChainsFromRing(list, [], ls);
    ChainsFromRing(prev, [], rest);
  }

  method Splice(list: ListHead, head: ListHead, ghost ls: seq<ListHead>, ghost es: seq<ListHead>)
    requires Ring(list, ls) && Ring(head, es) && Disjoint([list] + ls, [head] + es)
    modifies head, ls, es
    ensures Ring(head, ls + es)
  {
    ghost var c := [head] + es + [head];
    assert c[0].next == c[1];
    var empty := Empty(list, ls);
    if !empty {
      SpliceAfter(list, head, head.next, ls, es);
    } else {
      assert ls + es == es;
    }
  }

  method SpliceInit(list: ListHead, head: ListHead, ghost ls: seq<ListHead>, ghost es: seq<ListHead>)
    requires Ring(list, ls) && Ring(head, es) && Disjoint([list] + ls, [head] + es)
    modifies list, head, ls, es
    ensures Ring(head, ls + es) && Ring(list, [])
  {
    ghost var c := [head] + es + [head];
    assert c[0].next == c[1];
    var empty := Empty(list, ls);
    if !empty {
      SpliceDistinct(list, head, ls, es);
      SpliceAfter(list, head, head.next, ls, es);
      label spliced:
      assert ([list] + ls)[0] == list;
      assert forall i | 0 <= i < |[head] + es| :: ([head] + es)[i] != list;
      Init(list);
      assert forall i | 0 <= i < |es| :: es[i] == ([head] + es)[i + 1];
      CycleUnchanged@spliced([head] + (ls + es));
    } else {
      assert ls + es == es;
    }
  }

  method SpliceTail(list: ListHead, head: ListHead, ghost ls: seq<ListHead>, ghost es: seq<ListHead>)
    requires Ring(list, ls) && Ring(head, es) && Disjoint([list] + ls, [head] + es)
    modifies head, ls, es
    ensures Ring(head, es + ls)
  {
    var empty := Empty(list, ls);
    ghost var rest := if es == [] then [] else [head] + es[..|es| - 1];
    ghost var c := [head] + es + [head];
    assert c[|es| + 1].prev == c[|es|] && c[|es|].next == c[|es| + 1];
    if es != [] {
      FromLast(head, es);
      FewerDisjoint([list] + ls, [head] + es, [es[|es| - 1]] + rest);
    }
    if !empty {
      SpliceAfter(list, head.prev, head, ls, rest);
      if es == [] {
        assert es + ls == ls + rest;
      } else {
        FromHead(es[|es| - 1], ls, head, es[..|es| - 1]);
        assert es[..|es| - 1] + [es[|es| - 1]] + ls == es + ls;
      }
    } else {
      assert es + ls == es;
    }
  }

  lemma FewerDisjoint(s: seq<ListHead>, t: seq<ListHead>, u: seq<ListHead>)
    requires Disjoint(s, t) && forall x | x in u :: x in t
    ensures Disjoint(s, u)
  {
    forall i, j | 0 <= i < |s| && 0 <= j < |u|
      ensures s[i] != u[j]
    {
      assert u[j] in t;
    }
  }

  method SpliceTailInit(list: ListHead, head: ListHead, ghost ls: seq<ListHead>, ghost es: seq<ListHead>)
    requires Ring(list, ls) && Ring(head, es) && Disjoint([list] + ls, [head] + es)
    modifies list, head, ls, es
    ensures Ring(head, es + ls) && Ring(list, [])
  {
    var empty := Empty(list, ls);
    if !empty {
      SpliceDistinct(list, head, ls, es);
      assert ([list] + ls)[0] == list;
      assert forall i | 0 <= i < |[head] + es| :: ([head] + es)[i] != list;
      assert forall i | 0 <= i < |es| :: es[i] == ([head] + es)[i + 1];
      SpliceTail(list, head, ls, es);
      label spliced:
      Init(list);
      CycleUnchanged@spliced([head] + (es + ls));
    } else {
      assert es + ls == es;
    }
  }

  // ---------------------------------------------------------------------------
  // Operations that undo each other

  /** Cutting up to any entry (or at the head) and splicing back restores the list. */
  method CutPositionThenSplice(list: ListHead, head: ListHead, entry: ListHead,
                               ghost x: seq<ListHead>, ghost b: seq<ListHead>)
    requires Ring(head, x + b) && Ring(list, []) && list !in [head] + (x + b)
    requires if x == [] then entry == head else entry == x[|x| - 1]
    modifies list, head, x, b
    ensures Ring(head, x + b) && Ring(list, [])
  {
    CutPosition(list, head, entry, x, b);
    if x == [] {
      assert [list] + x == [list];
    }
    CutApart(list, head, x, b);
    SpliceInit(list, head, x, b);
  }

  /** Cutting in front of any entry (or the head) and splicing back restores the list. */
  method CutBeforeThenSplice(list: ListHead, head: ListHead, entry: ListHead,
                             ghost x: seq<ListHead>, ghost b: seq<ListHead>)
    requires Ring(head, x + b) && Ring(list, []) && list !in [head] + (x + b)
    requires entry == After(b, head)
    modifies list, head, x, b
    ensures Ring(head, x + b) && Ring(list, [])
  {
    CutApart(list, head, x, b);
    CutBefore(list, head, entry, x, b);
    SpliceInit(list, head, x, b);
  }

  lemma CutApart(list: ListHead, head: ListHead, x: seq<ListHead>, b: seq<ListHead>)
    requires Distinct([head] + (x + b)) && list !in [head] + (x + b)
    ensures Disjoint([list] + x, [head] + b)
  {
    FewerDistinct([head] + (x + b), x + ([head] + b));
    DistinctUnion(x, [head] + b);
    forall i, j | 0 <= i < |[list] + x| && 0 <= j < |[head] + b|
      ensures ([list] + x)[i] != ([head] + b)[j]
    {
      if i == 0 {
        assert ([head] + b)[j] in [head] + (x + b);
      } else {
        assert ([list] + x)[i] == x[i - 1];
      }
    }
  }

  function Rotated(s: seq<ListHead>, k: nat): seq<ListHead>
    decreases k
  {
    if k == 0 || s == [] then s else Rotated(s[1..] + [s[0]], k - 1)
  }

  /** k rotations move the first k elements to the end; |s| of them are the identity. */
  lemma {:induction false} RotationsWrap(s: seq<ListHead>, k: nat)
    requires k <= |s|
    ensures Rotated(s, k) == s[k..] + s[..k]
    ensures Rotated(s, |s|) == s
  {
    RotatedBy(s, k);
    RotatedBy(s, |s|);
  }

  lemma {:induction false} RotatedBy(s: seq<ListHead>, k: nat)
    requires k <= |s|
    ensures Rotated(s, k) == s[k..] + s[..k]
  {
    if k == 0 {
    } else {
      RotatedSnoc(s, k - 1);
      RotatedBy(s, k - 1);
      var t := s[k - 1..] + s[..k - 1];
      assert t[1..] + [t[0]] == s[k..] + s[..k];
    }
  }

  lemma {:induction false} RotatedSnoc(s: seq<ListHead>, k: nat)
    requires s != []
    ensures var t := Rotated(s, k); t != [] && Rotated(s, k + 1) == t[1..] + [t[0]]
    decreases k
  {
    var u := s[1..] + [s[0]];
    if k == 0 {
    } else {
      RotatedSnoc(u, k - 1);
    }
  }

  /** As many rotations as there are entries leave the list as it was. */
  method RotateFully(head: ListHead, n: nat, ghost es: seq<ListHead>)
    requires Ring(head, es) && n == |es|
    modifies head, es
    ensures Ring(head, es)
  {
    ghost var now := es;
    for i := 0 to n
      invariant now == Rotated(es, i) && Ring(head, now) && forall j | 0 <= j < |now| :: now[j] in es
    {
      RotatedSnoc(es, i);
      RotateLeft(head, now);
      now := now[1..] + [now[0]];
    }
    RotationsWrap(es, n);
  }
}
