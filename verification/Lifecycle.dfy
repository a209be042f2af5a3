/**
 * The clients of src/context.c on the global ring: accepting, the events of their connections, freeing, and
 * dropping all of them.
 */
module Lifecycle {
  import opened Socks5
  import opened Connection
  import opened Runs
  import opened List

  datatype PumpMethod = BufferpumpMethod | SplicepumpMethod

  /**
   * A client as the ring sees it: its entry, its connection in one of the states of the connection runs,
   * whether a splicepump hangs on it and whether its memory was released.
   */
  class Client {
    const entry: ListHead
    const dest: Destination
    var world: World
    var pumpAttached: bool
    var memoryFreed: bool

    /** transocks_client_new: the entry starts as a circle of its own. */
    constructor (dest: Destination)
      ensures fresh(entry) && Ring(entry, []) && this.dest == dest && world == Start(dest)
      ensures !pumpAttached && !memoryFreed
    {
      entry := new ListHead();
      this.dest, world := dest, Start(dest);
      pumpAttached, memoryFreed := false, false;
    }
  }

  // ---------------------------------------------------------------------------
  // Sequences of clients

  ghost predicate AllDistinct(s: seq<Client>) {
    forall i, j | 0 <= i < j < |s| :: s[i] != s[j]
  }

  ghost function Entries(cs: seq<Client>): seq<ListHead> {
    seq(|cs|, i requires 0 <= i < |cs| => cs[i].entry)
  }

  /** The clients of s that are not gone, in order. */
  ghost function Without(s: seq<Client>, gone: set<Client>): seq<Client> {
    if s == [] then []
    else if s[0] in gone then Without(s[1..], gone)
    else [s[0]] + Without(s[1..], gone)
  }

  lemma {:induction false} WithoutConcat(s: seq<Client>, t: seq<Client>, gone: set<Client>)
    ensures Without(s + t, gone) == Without(s, gone) + Without(t, gone)
  {
    if s == [] {
      assert s + t == t;
    } else {
      assert (s + t)[1..] == s[1..] + t;
      WithoutConcat(s[1..], t, gone);
    }
  }

  lemma {:induction false} WithoutMembers(s: seq<Client>, gone: set<Client>, c: Client)
    ensures c in Without(s, gone) <==> c in s && c !in gone
  {
    if s == [] {
    } else {
      WithoutMembers(s[1..], gone, c);
    }
  }

  lemma WithoutSubset(s: seq<Client>, gone: set<Client>)
    ensures forall c | c in Without(s, gone) :: c in s && c !in gone
  {
    forall c | c in Without(s, gone)
      ensures c in s && c !in gone
    {
      WithoutMembers(s, gone, c);
    }
  }

  lemma {:induction false} WithoutDistinct(s: seq<Client>, gone: set<Client>)
    requires AllDistinct(s)
    ensures AllDistinct(Without(s, gone))
  {
    if s == [] {
    } else {
      WithoutDistinct(s[1..], gone);
      WithoutMembers(s[1..], gone, s[0]);
      assert s[0] !in s[1..];
    }
  }

  lemma {:induction false} WithoutNone(s: seq<Client>, gone: set<Client>)
    requires forall c | c in s :: c !in gone
    ensures Without(s, gone) == s
  {
    if s == [] {
    } else {
      WithoutNone(s[1..], gone);
    }
  }

  lemma {:induction false} WithoutTwice(s: seq<Client>, gone: set<Client>, more: set<Client>)
    ensures Without(Without(s, gone), more) == Without(s, gone + more)
  {
    if s == [] {
    } else {
      WithoutTwice(s[1..], gone, more);
    }
  }

  /** Removing the one client at position k. */
  lemma {:induction false} WithoutOne(s: seq<Client>, k: nat)
    requires k < |s| && AllDistinct(s)
    ensures Without(s, {s[k]}) == s[..k] + s[k + 1..]
  {
    if k == 0 {
      assert forall i | 0 <= i < |s[1..]| :: s[1..][i] == s[i + 1];
      WithoutNone(s[1..], {s[0]});
    } else {
      WithoutOne(s[1..], k - 1);
      assert s[..k] == [s[0]] + s[1..][..k - 1];
    }
  }

  lemma EntriesCut(cs: seq<Client>, k: nat)
    requires k < |cs|
    ensures Entries(cs[..k] + cs[k + 1..]) == Entries(cs)[..k] + Entries(cs)[k + 1..]
  {
  }

  lemma SplitAround(es: seq<ListHead>, k: nat)
    requires k < |es|
    ensures es == es[..k] + [es[k]] + es[k + 1..]
  {
  }

  lemma Regrouped(n: ListHead, a: seq<ListHead>, b: seq<ListHead>, c: seq<ListHead>)
    ensures [n] + a + b + c == [n] + (a + b + c)
  {
  }

  lemma EntriesWithin(s: seq<Client>, dropped: set<Client>)
    ensures forall k | 0 <= k < |Without(s, dropped)| :: Entries(Without(s, dropped))[k] in Entries(s)
  {
    var t := Without(s, dropped);
    forall k | 0 <= k < |t|
      ensures Entries(t)[k] in Entries(s)
    {
      WithoutMembers(s, dropped, t[k]);
      var j :| 0 <= j < |s| && s[j] == t[k];
      assert Entries(s)[j] == t[k].entry;
    }
  }

  // ---------------------------------------------------------------------------
  // The environment

  class Env {
    const head: ListHead
    const pump: PumpMethod
    /** container_of: which client an entry is embedded in. */
    var container: map<ListHead, Client>
    /** All clients ever linked, in accept order; those freed since; those on the ring. */
    ghost var accepted: seq<Client>
    ghost var gone: set<Client>
    ghost var clients: seq<Client>

    /** A listed client can be found from its entry, and a splicepump hangs on it exactly after the handshake. */
    ghost predicate OnRing(c: Client)
      reads this, c
    {
      && c.entry in container && container[c.entry] == c
      && c.world.conn.state != Destroying
      && (c.pumpAttached <==> pump == SplicepumpMethod && c.world.conn.hook == OnPump)
    }

    /** A client is gone, its memory released and its connection destroyed, all or none. */
    ghost predicate Accounted(c: Client)
      reads this, c
    {
      (c in gone <==> c.memoryFreed) && (c.memoryFreed <==> !c.world.conn.Alive())
    }

    /** The listed clients are the accepted ones that are not gone, in accept order. */
    ghost predicate Books()
      reads this, clients, accepted
    {
      && AllDistinct(accepted)
      && clients == Without(accepted, gone)
      && head !in container
      && (forall c | c in accepted :: Accounted(c))
      && forall c | c in clients :: OnRing(c)
    }

    /** The ring runs through exactly the listed clients. */
    ghost predicate Valid()
      reads this, head, clients, Entries(clients), accepted
    {
      Ring(head, Entries(clients)) && Books()
    }

    constructor (pump: PumpMethod)
      ensures Valid() && fresh(head) && accepted == [] == clients && gone == {} && this.pump == pump
    {
      this.pump := pump;
      head := new ListHead();
      container, accepted, gone, clients := map[], [], {}, [];
    }

    /** A client is on the ring if and only if its memory has not been released. */
    lemma ListedIffLive(c: Client)
      requires Books() && c in accepted
      ensures c in clients <==> !c.memoryFreed
      ensures c in clients <==> c.world.conn.Alive()
    {
      WithoutMembers(accepted, gone, c);
    }

    /** listener_cb: a client whose set-up succeeded goes to the end of the ring. */
    method Accept(dest: Destination) returns (c: Client)
      requires Valid()
      modifies this, head, Entries(clients)
      ensures Valid() && fresh(c) && fresh(c.entry) && c.dest == dest && c.world == Start(dest)
      ensures accepted == old(accepted) + [c] && clients == old(clients) + [c] && gone == old(gone)
    {
      c := new Client(dest);
      label made:
      Enlist(c);
      container := container[c.entry := c];
      accepted := accepted + [c];
      BooksAfterAccept@made(c);
    }

    twostate lemma BooksAfterAccept(c: Client)
      requires old(Books())
      requires c !in old(accepted) && c !in old(gone) && old(c.entry !in container) && c.entry != head
      requires !c.memoryFreed && !c.pumpAttached && c.world == Start(c.dest)
      requires accepted == old(accepted) + [c] && clients == old(clients) + [c] && gone == old(gone)
      requires container == old(container)[c.entry := c]
      requires forall d | d in old(accepted) :: unchanged(d)
      ensures Books()
    {
      WithoutConcat(old(accepted), [c], gone);
      WithoutSubset(old(accepted), gone);
    }

    /** The list_add_tail of listener_cb. */
    method Enlist(c: Client)
      requires Ring(head, Entries(clients)) && c.entry !in [head] + Entries(clients)
      modifies this`clients, head, Entries(clients), c.entry
      ensures clients == old(clients) + [c] && Ring(head, Entries(clients))
      ensures unchanged(c) && forall d | d in accepted :: unchanged(d)
    {
      AddTail(c.entry, head, Entries(clients));
      assert Entries(clients + [c]) == Entries(clients) + [c.entry];
      clients := clients + [c];
    }

    /** Freeing needs a live client that is on the ring, or whose entry is still a circle of its own. */
    ghost predicate Freeable(c: Client)
      reads this, head, clients, Entries(clients), accepted, c, c.entry
    {
      && Valid() && !c.memoryFreed && c.world.conn.Alive() && c.world.conn.state != Destroying
      && (c in clients || (Ring(c.entry, []) && c.entry !in [head] + Entries(clients)))
    }

    /** transocks_client_free: unlinks the client, wherever it is, and releases it. */
    method ClientFree(c: Client)
      requires Freeable(c)
      modifies this, head, Entries(clients), c, c.entry
      ensures Valid() && c.memoryFreed && c.world == old(c.world).(conn := old(c.world).conn.Freed())
      ensures !c.world.conn.Alive() && SwitchedOff(c.world.conn)
      ensures accepted == old(accepted) && gone == old(gone) + {c} && container == old(container)
      ensures clients == Without(old(clients), {c}) && (c !in old(clients) ==> clients == old(clients))
    {
      if c.world.conn.state == Destroyed || c.world.conn.state == Destroying {
        return;
      }
      WithoutDistinct(accepted, gone);
      var w := c.world;
      c.world := w.(conn := w.conn.(state := Destroying));
      Delist(c);
      c.world := w.(conn := w.conn.Freed());
      c.memoryFreed := true;
      gone := gone + {c};
      BooksAfterFree(c);
    }

    twostate lemma BooksAfterFree(c: Client)
      requires old(Books())
      requires c.memoryFreed && !c.world.conn.Alive() && gone == old(gone) + {c}
      requires accepted == old(accepted) && clients == Without(old(clients), {c}) && container == old(container)
      requires forall d | d in accepted && d != c :: unchanged(d)
      ensures Books()
    {
      WithoutTwice(accepted, old(gone), {c});
      WithoutSubset(accepted, old(gone));
      WithoutSubset(old(clients), {c});
    }

    /** The nodes that share a circle with the client's entry. */
    ghost function Neighbours(c: Client): seq<ListHead>
      reads this
    {
      if c in clients then
        var k :| 0 <= k < |clients| && clients[k] == c;
        Entries(clients)[k + 1..] + [head] + Entries(clients)[..k]
      else []
    }

    lemma CircleOf(c: Client)
      requires Ring(head, Entries(clients)) && (c in clients || Ring(c.entry, []))
      ensures Cycle([c.entry] + Neighbours(c))
    {
      if c in clients {
        var es := Entries(clients);
        var k :| 0 <= k < |clients| && clients[k] == c && Neighbours(c) == es[k + 1..] + [head] + es[..k];
        SplitAround(es, k);
        RingAsCycle(head, es[..k], es[k], es[k + 1..]);
        Regrouped(c.entry, es[k + 1..], [head], es[..k]);
      }
    }

    lemma NeighboursWithin(c: Client)
      ensures forall n | n in Neighbours(c) :: n == head || n in Entries(clients)
      ensures c !in clients ==> Neighbours(c) == []
    {
    }

    lemma RingOfOthers(c: Client)
      requires AllDistinct(clients) && c in clients && Cycle(Neighbours(c))
      ensures Ring(head, Entries(Without(clients, {c})))
    {
      var es := Entries(clients);
      var k :| 0 <= k < |clients| && clients[k] == c && Neighbours(c) == es[k + 1..] + [head] + es[..k];
      CycleAsRing(es[k + 1..], head, es[..k]);
      WithoutOne(clients, k);
      EntriesCut(clients, k);
    }

    /** The list_del of transocks_client_free. */
    method Delist(c: Client)
      requires Ring(head, Entries(clients)) && AllDistinct(clients)
      requires c in clients || (Ring(c.entry, []) && c.entry !in [head] + Entries(clients))
      modifies this`clients, head, Entries(clients), c.entry
      ensures clients == Without(old(clients), {c}) && Ring(head, Entries(clients))
      ensures c !in old(clients) ==> clients == old(clients)
      ensures unchanged(c) && forall d | d in accepted :: unchanged(d)
    {
      CloseGap(c);
      if c !in clients {
        WithoutNone(clients, {c});
      }
      clients := Without(clients, {c});
    }

    /** Takes the entry out of its circle: the ring runs through the other clients, if it was on the ring at all. */
    method CloseGap(c: Client)
      requires Ring(head, Entries(clients)) && AllDistinct(clients)
      requires c in clients || (Ring(c.entry, []) && c.entry !in [head] + Entries(clients))
      modifies head, Entries(clients), c.entry
      ensures Ring(head, Entries(if c in clients then Without(clients, {c}) else clients))
    {
      CircleOf(c);
      NeighboursWithin(c);
      label before:
      Del(c.entry, Neighbours(c));
      if c in clients {
        RingOfOthers(c);
      } else {
        CycleUnchanged@before([head] + Entries(clients));
      }
    }

    /**
     * An event of a client's connection. The callback may free the client; a finished handshake hangs the
     * splicepump on it, where that is the pump.
     */
    method Handle(c: Client, e: Event)
      requires Valid() && c in clients && (pump == BufferpumpMethod || c.world.conn.hook != OnPump)
      modifies this, head, Entries(clients), c, c.entry
      ensures Valid() && accepted == old(accepted) && c.world == Step(old(c.world), e)
      ensures gone == (if c.world.conn.Alive() then old(gone) else old(gone) + {c})
      ensures clients == if c.world.conn.Alive() then old(clients) else Without(old(clients), {c})
    {
      ReadyToFree(c);
      StepNeverStaysDestroying(c.world, e);
      var w := Step(c.world, e);
      if w.conn.Alive() {
        Continue(c, w);
      } else {
        ClientFree(c);
        c.world := w;
        BooksAfterFree(c);
      }
    }

    /** The client lives on. */
    method Continue(c: Client, w: World)
      requires Valid() && c in clients && w.conn.Alive() && w.conn.state != Destroying
      requires pump == BufferpumpMethod || c.world.conn.hook != OnPump
      modifies c`world, c`pumpAttached
      ensures Valid() && c.world == w
    {
      ReadyToFree(c);
      c.world := w;
      if pump == SplicepumpMethod && w.conn.hook == OnPump {
        c.pumpAttached := true;
      }
    }

    /** Does freeing through the pump decline? Only the splicepump, and only before it is attached. */
    predicate Declines(c: Client)
      reads c
    {
      pump == SplicepumpMethod && !c.pumpAttached
    }

    lemma ReadyToFree(c: Client)
      requires Valid() && c in clients
      ensures Freeable(c) && c in accepted && c !in gone
    {
      WithoutMembers(accepted, gone, c);
    }

    /** transocks_pump_free */
    method PumpFree(c: Client)
      requires Valid() && c in clients
      modifies this, head, Entries(clients), c, c.entry
      ensures Valid() && accepted == old(accepted) && container == old(container)
      ensures old(Declines(c)) ==> clients == old(clients) && gone == old(gone) && unchanged(c)
      ensures !old(Declines(c)) ==> clients == Without(old(clients), {c}) && c.memoryFreed && gone == old(gone) + {c}
    {
      if pump == SplicepumpMethod && !c.pumpAttached {
        return;
      }
      ReadyToFree(c);
      ClientFree(c);
    }

    // ---------------------------------------------------------------------------
    // Dropping all clients

    /** Reading the next link of a node: the head, or an entry whose client has not been released. */
    method NextEntry(n: ListHead) returns (r: ListHead?)
      requires n == head || (n in container && !container[n].memoryFreed)
      ensures r == n.next
    {
      r := n.next;
    }

    /** The entry of the i-th client of s, or the head behind the last. */
    ghost function EntryAt(s: seq<Client>, i: nat): ListHead {
      if i < |s| then s[i].entry else head
    }

    lemma NextOnRing(i: nat)
      requires Valid() && i < |clients|
      ensures head.next == EntryAt(clients, 0) && clients[i].entry.next == EntryAt(clients, i + 1)
    {
      var c := [head] + Entries(clients) + [head];
      assert c[0].next == c[1] && c[i + 1].next == c[i + 2];
    }

    /** The clients of s from position i on are all still there, behind what is left of the others. */
    lemma Progress(s: seq<Client>, dropped: set<Client>, i: nat)
      requires AllDistinct(s) && i <= |s| && forall c | c in dropped :: c in s[..i]
      ensures Without(s, dropped) == Without(s[..i], dropped) + s[i..]
    {
      assert s == s[..i] + s[i..];
      WithoutConcat(s[..i], s[i..], dropped);
      forall c | c in s[i..]
        ensures c !in dropped
      {
        assert forall j | 0 <= j < i :: s[..i][j] == s[j];
      }
      WithoutNone(s[i..], dropped);
    }

    /** The node behind the i-th of the original clients, after some of the earlier ones were dropped. */
    lemma NextAfterDrops(s: seq<Client>, dropped: set<Client>, i: nat)
      requires Valid() && AllDistinct(s) && i < |s| && clients == Without(s, dropped)
      requires forall c | c in dropped :: c in s[..i]
      ensures s[i] in clients && s[i].entry.next == EntryAt(s, i + 1)
    {
      Progress(s, dropped, i);
      var k := |Without(s[..i], dropped)|;
      assert clients[k] == s[i] && EntryAt(clients, k + 1) == EntryAt(s, i + 1);
      NextOnRing(k);
    }

    /** The clients that transocks_drop_all_clients gets rid of. */
    ghost function Doomed(s: seq<Client>): set<Client>
      reads s
    {
      set c | c in s && !Declines(c)
    }

    /** Between iterations: the i-th of the original clients is next, and n remembers the one behind it. */
    ghost predicate Dropping(all: seq<Client>, doomed: set<Client>, before: set<Client>, i: nat,
                             pos: ListHead?, n: ListHead?)
      reads this, head, clients, Entries(clients), accepted, all
    {
      && Valid() && AllDistinct(all) && i <= |all|
      && clients == Without(all, doomed * Members(all[..i])) && gone == before + doomed * Members(all[..i])
      && pos == EntryAt(all, i) && (i < |all| ==> n == EntryAt(all, i + 1))
      && forall j | i <= j < |all| :: all[j] in doomed <==> !Declines(all[j])
    }

    ghost function Members(s: seq<Client>): set<Client> {
      set c | c in s
    }

    lemma Longer(all: seq<Client>, i: nat)
      requires i < |all|
      ensures all[..i] + [all[i]] == all[..i + 1]
    {
    }

    lemma OneMore(all: seq<Client>, doomed: set<Client>, i: nat)
      requires i < |all|
      ensures doomed * Members(all[..i + 1]) == doomed * Members(all[..i]) + doomed * {all[i]}
    {
      assert all[..i + 1] == all[..i] + [all[i]];
    }

    /** What the i-th client leaves behind, if it is dropped and if it is not. */
    lemma OneLess(all: seq<Client>, doomed: set<Client>, i: nat)
      requires i < |all|
      ensures var (before, after) := (doomed * Members(all[..i]), doomed * Members(all[..i + 1]));
              if all[i] in doomed then
                Without(Without(all, before), {all[i]}) == Without(all, after) && doomed * {all[i]} == {all[i]}
              else before == after && doomed * {all[i]} == {}
    {
      WithoutTwice(all, doomed * Members(all[..i]), {all[i]});
      OneMore(all, doomed, i);
      assert doomed * {all[i]} == if all[i] in doomed then {all[i]} else {};
    }

    /** The loop body of list_for_each_entry_safe. */
    method DropCurrent(pos: ListHead, ghost all: seq<Client>, ghost doomed: set<Client>, ghost i: nat)
      returns (c: Client)
      requires Valid() && AllDistinct(all) && i < |all| && pos == all[i].entry
      requires clients == Without(all, doomed * Members(all[..i]))
      requires forall j | i <= j < |all| :: all[j] in doomed <==> !Declines(all[j])
      modifies this, head, Entries(all), all[i]
      ensures c == all[i] && accepted == old(accepted) && Valid()
      ensures forall d | d in all && (d != c || c !in doomed) :: unchanged(d)
      ensures gone == old(gone) + (doomed * {c})
      ensures clients == Without(all, doomed * Members(all[..i + 1]))
      ensures forall j | i < j < |all| :: all[j] in doomed <==> !Declines(all[j])
    {
      NextAfterDrops(all, doomed * Members(all[..i]), i);
      ReadyForNext(all, doomed, i);
      EntriesWithin(all, doomed * Members(all[..i]));
      OneLess(all, doomed, i);
      assert Entries(all)[i] == pos;
      c := container[pos];
      PumpFree(c);
    }

    /** The loop body and the loop step. */
    method DropOne(pos: ListHead, n: ListHead, ghost all: seq<Client>, ghost doomed: set<Client>,
                   ghost before: set<Client>, ghost i: nat)
      returns (c: Client, pos': ListHead, n': ListHead?)
      requires Dropping(all, doomed, before, i, pos, n) && i < |all|
      modifies this, head, Entries(all), all
      ensures c == all[i] && accepted == old(accepted)
      ensures forall d | d in all && d !in doomed :: unchanged(d)
      ensures Dropping(all, doomed, before, i + 1, pos', n')
    {
      c := DropCurrent(pos, all, doomed, i);
      OneMore(all, doomed, i);
      pos', n' := Advance(n, all, doomed, before, i + 1);
    }

    /** The loop step: the remembered entry becomes the current one. */
    method Advance(n: ListHead, ghost all: seq<Client>, ghost doomed: set<Client>, ghost before: set<Client>,
                   ghost i: nat)
      returns (pos': ListHead, n': ListHead?)
      requires Valid() && AllDistinct(all) && i <= |all| && n == EntryAt(all, i)
      requires clients == Without(all, doomed * Members(all[..i])) && gone == before + doomed * Members(all[..i])
      requires forall j | i <= j < |all| :: all[j] in doomed <==> !Declines(all[j])
      ensures Dropping(all, doomed, before, i, pos', n')
    {
      pos' := n;
      ReadyForNext(all, doomed, i);
      n' := NextEntry(n);
    }

    lemma ReadyForNext(all: seq<Client>, doomed: set<Client>, i: nat)
      requires Valid() && AllDistinct(all) && i <= |all| && clients == Without(all, doomed * Members(all[..i]))
      ensures i < |all| ==>
                && all[i].entry.next == EntryAt(all, i + 1)
                && all[i].entry in container && container[all[i].entry] == all[i] && !all[i].memoryFreed
    {
      if i < |all| {
        NextAfterDrops(all, doomed * Members(all[..i]), i);
        ReadyToFree(all[i]);
      }
    }

    /** The initialisation of list_for_each_entry_safe. */
    method FirstTwo() returns (pos: ListHead, n: ListHead?)
      requires Valid()
      ensures Dropping(clients, Doomed(clients), gone, 0, pos, n)
    {
      WithoutDistinct(accepted, gone);
      WithoutNone(clients, {});
      assert Doomed(clients) * Members(clients[..0]) == {};
      ReadyForNext(clients, Doomed(clients), 0);
      ghost var c := [head] + Entries(clients) + [head];
      assert c[0].next == c[1];
      pos := NextEntry(head);
      n := NextEntry(pos);
    }

    /**
     * transocks_drop_all_clients, with the loop of list_for_each_entry_safe: it visits every client of
     * the ring once, in order, and leaves exactly those whose pump declines to free them.
     */
    method DropAll() returns (visited: seq<Client>)
      requires Valid()
      modifies this, head, clients, Entries(clients)
      ensures Valid() && accepted == old(accepted) && visited == old(clients)
      ensures clients == Without(old(clients), old(Doomed(clients)))
      ensures gone == old(gone) + old(Doomed(clients))
      ensures forall c | c in old(clients) && c !in old(Doomed(clients)) :: unchanged(c)
    {
      ghost var all, doomed := clients, Doomed(clients);
      visited := [];
      ghost var i := 0;
      var pos, n := FirstTwo();
      while pos != head
        invariant 0 <= i <= |all| && visited == all[..i] && accepted == old(accepted)
        invariant Dropping(all, doomed, old(gone), i, pos, n)
        invariant forall d | d in all && d !in doomed :: unchanged(d)
        decreases |all| - i
      {
        Longer(all, i);
        var c;
        c, pos, n := DropOne(pos, n, all, doomed, old(gone), i);
        visited := visited + [c];
        i := i + 1;
      }
      ReadyForNext(all, doomed, i);
      assert all[..i] == all && doomed * Members(all) == doomed;
    }

    /** Dropping all leaves nothing with the bufferpump, and with the splicepump the clients in the handshake. */
    lemma LeftAfterDrop(c: Client)
      requires Valid()
      ensures c in Without(clients, Doomed(clients)) <==>
                c in clients && pump == SplicepumpMethod && c.world.conn.hook != OnPump
      ensures pump == BufferpumpMethod ==> Without(clients, Doomed(clients)) == []
    {
      WithoutMembers(clients, Doomed(clients), c);
      if pump == BufferpumpMethod && Without(clients, Doomed(clients)) != [] {
        WithoutMembers(clients, Doomed(clients), Without(clients, Doomed(clients))[0]);
      }
    }
  }

  // ---------------------------------------------------------------------------
  // Whole runs of the program

  /** What can happen; k picks a client by its place in the accept order. */
  datatype Op =
    | Accepts(dest: Destination)
    | SetupFails(dest: Destination)
    | Happens(k: nat, event: Event)
    | PumpFrees(k: nat)
    | DropsAll

  /** An accepted client as a value: its destination and its connection. */
  datatype Slot = Slot(dest: Destination, world: World) {
    predicate Alive() {
      world.conn.Alive()
    }

    /** Does a pump that frees the client decline? Only the splicepump does, and only during the handshake. */
    predicate Spared(pump: PumpMethod) {
      pump == SplicepumpMethod && world.conn.hook != OnPump
    }

    /** The client after the pump was told to free it. */
    function Released(pump: PumpMethod): Slot {
      if Alive() && !Spared(pump) then this.(world := world.(conn := world.conn.Freed())) else this
    }

    /** Is the connection the one the connection runs follow? A splicepump takes it away from them. */
    predicate Listens(pump: PumpMethod) {
      Alive() && (pump == BufferpumpMethod || world.conn.hook != OnPump)
    }
  }

  /** What one operation does to the accepted clients. */
  function Apply(pump: PumpMethod, ss: seq<Slot>, op: Op): seq<Slot> {
    match op
    case Accepts(dest) => ss + [Slot(dest, Start(dest))]
    case SetupFails(_) => ss
    case Happens(k, e) =>
      if k < |ss| && ss[k].Listens(pump) then ss[k := ss[k].(world := Step(ss[k].world, e))] else ss
    case PumpFrees(k) => if k < |ss| then ss[k := ss[k].Released(pump)] else ss
    case DropsAll => seq(|ss|, i requires 0 <= i < |ss| => ss[i].Released(pump))
  }

  function ApplyAll(pump: PumpMethod, ops: seq<Op>): seq<Slot>
    decreases |ops|
  {
    if ops == [] then [] else Apply(pump, ApplyAll(pump, ops[..|ops| - 1]), ops[|ops| - 1])
  }

  lemma ApplySnoc(pump: PumpMethod, ops: seq<Op>, op: Op)
    ensures ApplyAll(pump, ops + [op]) == Apply(pump, ApplyAll(pump, ops), op)
  {
    assert (ops + [op])[..|ops|] == ops;
  }

  /** The events that the k-th accepted client's connection took. */
  function History(pump: PumpMethod, ops: seq<Op>, k: nat): seq<Event>
    decreases |ops|
  {
    if ops == [] then []
    else
      var init, op := ops[..|ops| - 1], ops[|ops| - 1];
      var ss := ApplyAll(pump, init);
      History(pump, init, k)
      + if op.Happens? && op.k == k && k < |ss| && ss[k].Listens(pump) then [op.event] else []
  }

  /** A live client is where its own events led it, whatever happened to the others. */
  lemma {:induction false} SlotIsRun(pump: PumpMethod, ops: seq<Op>, k: nat)
    requires k < |ApplyAll(pump, ops)|
    ensures var s := ApplyAll(pump, ops)[k];
            s.Alive() ==> s.world == Run(Start(s.dest), History(pump, ops, k))
    decreases |ops|
  {
    var init, op := ops[..|ops| - 1], ops[|ops| - 1];
    var ss := ApplyAll(pump, init);
    if k < |ss| {
      SlotIsRun(pump, init, k);
      if op.Happens? && op.k == k && ss[k].Listens(pump) {
        RunSnoc(Start(ss[k].dest), History(pump, init, k), op.event);
      } else {
        assert History(pump, ops, k) == History(pump, init, k);
      }
    } else {
      NoHistory(pump, init, k);
    }
  }

  /** So the theorems about the runs of one client hold of every live client of the program. */
  lemma LiveSlotInv(pump: PumpMethod, ops: seq<Op>, k: nat)
    requires k < |ApplyAll(pump, ops)| && ApplyAll(pump, ops)[k].Alive()
    ensures Inv(ApplyAll(pump, ops)[k].world)
  {
    SlotIsRun(pump, ops, k);
    Reachable(ApplyAll(pump, ops)[k].dest, History(pump, ops, k));
  }

  lemma {:induction false} NoHistory(pump: PumpMethod, ops: seq<Op>, k: nat)
    requires |ApplyAll(pump, ops)| <= k
    ensures History(pump, ops, k) == []
    decreases |ops|
  {
    if ops == [] {
    } else {
      NoHistory(pump, ops[..|ops| - 1], k);
    }
  }

  /** The destinations of the accepted clients, in order. */
  function Destinations(ops: seq<Op>): seq<Destination> {
    if ops == [] then []
    else Destinations(ops[..|ops| - 1]) + if ops[|ops| - 1].Accepts? then [ops[|ops| - 1].dest] else []
  }

  /** The events aimed at the k-th accepted client after it was accepted. */
  function Aimed(ops: seq<Op>, k: nat): seq<Event> {
    if ops == [] then []
    else
      var init, op := ops[..|ops| - 1], ops[|ops| - 1];
      Aimed(init, k) + if op.Happens? && op.k == k && k < |Destinations(init)| then [op.event] else []
  }

  /** There is one slot for each accepted client, in accept order. */
  lemma {:induction false} SlotsAreAccepts(pump: PumpMethod, ops: seq<Op>)
    ensures |ApplyAll(pump, ops)| == |Destinations(ops)|
    ensures forall k | 0 <= k < |Destinations(ops)| :: ApplyAll(pump, ops)[k].dest == Destinations(ops)[k]
    decreases |ops|
  {
    if ops == [] {
    } else {
      SlotsAreAccepts(pump, ops[..|ops| - 1]);
    }
  }

  /**
   * No event is lost: a live client has taken every event aimed at it, in order, and under the splicepump
   * those up to the end of the handshake.
   */
  lemma {:induction false} TakesItsEvents(pump: PumpMethod, ops: seq<Op>, k: nat)
    requires k < |ApplyAll(pump, ops)|
    ensures var s := ApplyAll(pump, ops)[k];
            s.Alive() ==>
              && History(pump, ops, k) <= Aimed(ops, k)
              && (pump == BufferpumpMethod || s.world.conn.hook != OnPump ==> History(pump, ops, k) == Aimed(ops, k))
    decreases |ops|
  {
    var init, op := ops[..|ops| - 1], ops[|ops| - 1];
    var ss := ApplyAll(pump, init);
    SlotsAreAccepts(pump, init);
    if k < |ss| {
      TakesItsEvents(pump, init, k);
    } else {
      NoHistory(pump, init, k);
      NoneAimed(init, k);
    }
  }

  lemma {:induction false} NoneAimed(ops: seq<Op>, k: nat)
    requires |Destinations(ops)| <= k
    ensures Aimed(ops, k) == []
  {
    if ops == [] {
    } else {
      NoneAimed(ops[..|ops| - 1], k);
    }
  }

  /** What one more operation does to each of the clients. */
  lemma OperationEffect(pump: PumpMethod, ops: seq<Op>, op: Op, k: nat)
    requires k < |ApplyAll(pump, ops)|
    ensures var (ss, ss') := (ApplyAll(pump, ops), ApplyAll(pump, ops + [op]));
            && |ss'| == (if op.Accepts? then |ss| + 1 else |ss|)
            && Affected(pump, op, k, ss[k], ss'[k])
  {
    ApplySnoc(pump, ops, op);
    ApplyAffects(pump, ApplyAll(pump, ops), op, k);
  }

  /** The k-th accepted client before and after an operation. */
  predicate Affected(pump: PumpMethod, op: Op, k: nat, s: Slot, s': Slot) {
    var handshake := s.world.conn.hook != OnPump;
    if !s.world.conn.Alive() then s' == s
    else if op.Happens? && op.k == k && (pump == BufferpumpMethod || handshake) then
      s' == Slot(s.dest, Step(s.world, op.event))
    else if (op.DropsAll? || op == PumpFrees(k)) && (pump == BufferpumpMethod || !handshake) then
      !s'.world.conn.Alive() && s'.dest == s.dest
    else s' == s
  }

  lemma ApplyAffects(pump: PumpMethod, ss: seq<Slot>, op: Op, k: nat)
    requires k < |ss|
    ensures var ss' := Apply(pump, ss, op);
            |ss'| == (if op.Accepts? then |ss| + 1 else |ss|) && Affected(pump, op, k, ss[k], ss'[k])
  {
  }

  /** However a client ended, no timer is pending for it and neither of its sides is read or written. */
  lemma {:induction false} EndedIsSwitchedOff(pump: PumpMethod, ops: seq<Op>, k: nat)
    requires k < |ApplyAll(pump, ops)| && !ApplyAll(pump, ops)[k].world.conn.Alive()
    ensures SwitchedOff(ApplyAll(pump, ops)[k].world.conn)
    decreases |ops|
  {
    var init, op := ops[..|ops| - 1], ops[|ops| - 1];
    var ss := ApplyAll(pump, init);
    if k < |ss| {
      if !ss[k].Alive() {
        EndedIsSwitchedOff(pump, init, k);
      } else if op.Happens? {
        StepSwitchesOff(ss[k].world, op.event);
      }
    }
  }

  /** SIGUSR1 leaves a client alive if and only if the pump is the splicepump and the handshake is not finished. */
  lemma DropAllExact(pump: PumpMethod, ops: seq<Op>, k: nat)
    requires k < |ApplyAll(pump, ops)|
    ensures var (s, ss) := (ApplyAll(pump, ops)[k], ApplyAll(pump, ops + [DropsAll]));
            && k < |ss|
            && (ss[k].Alive() <==> s.Alive() && pump == SplicepumpMethod && s.world.conn.hook != OnPump)
            && (ss[k].Alive() ==> ss[k] == s)
  {
    OperationEffect(pump, ops, DropsAll, k);
  }

  /** With the splicepump, SIGUSR1 does not close a connection that has just been accepted. */
  lemma DropSparesHandshake(dest: Destination)
    ensures ApplyAll(SplicepumpMethod, [Accepts(dest), DropsAll]) == [Slot(dest, Start(dest))]
    ensures ApplyAll(SplicepumpMethod, [Accepts(dest), DropsAll])[0].Alive()
  {
    ApplySnoc(SplicepumpMethod, [], Accepts(dest));
    ApplySnoc(SplicepumpMethod, [Accepts(dest)], DropsAll);
    assert [] + [Accepts(dest)] == [Accepts(dest)] && [Accepts(dest)] + [DropsAll] == [Accepts(dest), DropsAll];
  }

  ghost predicate MatchesSlot(c: Client, s: Slot)
    reads c
  {
    c.dest == s.dest && (c.memoryFreed <==> !s.Alive()) && (s.Alive() ==> c.world == s.world)
  }

  ghost predicate Matches(table: seq<Client>, ss: seq<Slot>)
    reads table
  {
    |table| == |ss| && forall k | 0 <= k < |ss| :: MatchesSlot(table[k], ss[k])
  }

  method PerformAccept(env: Env, dest: Destination, table: seq<Client>, ghost ss: seq<Slot>)
    returns (table': seq<Client>)
    requires env.Valid() && table == env.accepted && Matches(table, ss)
    modifies env, env.head, Entries(table)
    ensures env.Valid() && table' == env.accepted && Matches(table', Apply(env.pump, ss, Accepts(dest)))
    ensures table <= table' && forall i | |table| <= i < |table'| :: fresh(table'[i]) && fresh(table'[i].entry)
  {
    EntriesWithin(table, env.gone);
    var c := env.Accept(dest);
    table' := table + [c];
    env.ListedIffLive(c);
  }

  method PerformSetupFails(env: Env, dest: Destination, table: seq<Client>, ghost ss: seq<Slot>)
    requires env.Valid() && table == env.accepted && Matches(table, ss)
    modifies env, env.head, Entries(table)
    ensures env.Valid() && table == env.accepted && Matches(table, Apply(env.pump, ss, SetupFails(dest)))
  {
    EntriesWithin(table, env.gone);
    var c := new Client(dest);
    env.ClientFree(c);
  }

  method PerformHappens(env: Env, k: nat, e: Event, table: seq<Client>, ghost ss: seq<Slot>)
    requires env.Valid() && table == env.accepted && Matches(table, ss)
    modifies env, env.head, table, Entries(table)
    ensures env.Valid() && table == env.accepted && Matches(table, Apply(env.pump, ss, Happens(k, e)))
  {
    if k < |table| && !table[k].memoryFreed
       && (env.pump == BufferpumpMethod || table[k].world.conn.hook != OnPump) {
      EntriesWithin(table, env.gone);
      env.ListedIffLive(table[k]);
      assert Entries(table)[k] == table[k].entry;
      env.Handle(table[k], e);
      env.ListedIffLive(table[k]);
    }
  }

  method PerformPumpFrees(env: Env, k: nat, table: seq<Client>, ghost ss: seq<Slot>)
    requires env.Valid() && table == env.accepted && Matches(table, ss)
    modifies env, env.head, table, Entries(table)
    ensures env.Valid() && table == env.accepted && Matches(table, Apply(env.pump, ss, PumpFrees(k)))
  {
    if k < |table| && !table[k].memoryFreed {
      EntriesWithin(table, env.gone);
      env.ListedIffLive(table[k]);
      assert Entries(table)[k] == table[k].entry;
      assert env.OnRing(table[k]);
      env.PumpFree(table[k]);
    }
  }

  /** Which clients DropAll gets rid of. */
  lemma DoomedSlots(env: Env, table: seq<Client>, ss: seq<Slot>)
    requires env.Valid() && table == env.accepted && Matches(table, ss)
    ensures forall k | 0 <= k < |table| :: table[k] in env.clients <==> ss[k].Alive()
    ensures forall k | 0 <= k < |table| :: table[k] in env.Doomed(env.clients) <==>
                                             ss[k].Alive() && !ss[k].Spared(env.pump)
  {
    forall k | 0 <= k < |table|
      ensures table[k] in env.clients <==> ss[k].Alive()
      ensures table[k] in env.Doomed(env.clients) <==> ss[k].Alive() && !ss[k].Spared(env.pump)
    {
      env.ListedIffLive(table[k]);
    }
  }

  method PerformDrop(env: Env, table: seq<Client>, ghost ss: seq<Slot>)
    requires env.Valid() && table == env.accepted && Matches(table, ss)
    modifies env, env.head, table, Entries(table)
    ensures env.Valid() && table == env.accepted && Matches(table, Apply(env.pump, ss, DropsAll))
  {
    EntriesWithin(table, env.gone);
    WithoutSubset(table, env.gone);
    DoomedSlots(env, table, ss);
    assert forall k | 0 <= k < |env.clients| :: env.clients[k] in table;
    ghost var was, doomed := env.clients, env.Doomed(env.clients);
    var _ := env.DropAll();
    forall k | 0 <= k < |ss|
      ensures MatchesSlot(table[k], ss[k].Released(env.pump))
    {
      WithoutMembers(was, doomed, table[k]);
      env.ListedIffLive(table[k]);
    }
  }

  /** One operation on an environment whose accepted clients are in the table. */
  method Perform(env: Env, op: Op, table: seq<Client>, ghost ss: seq<Slot>) returns (table': seq<Client>)
    requires env.Valid() && table == env.accepted && Matches(table, ss)
    modifies env, env.head, table, Entries(table)
    ensures env.Valid() && table' == env.accepted && Matches(table', Apply(env.pump, ss, op))
    ensures table <= table' && forall i | |table| <= i < |table'| :: fresh(table'[i]) && fresh(table'[i].entry)
  {
    table' := table;
    match op {
      case Accepts(dest) => table' := PerformAccept(env, dest, table, ss);
      case SetupFails(dest) => PerformSetupFails(env, dest, table, ss);
      case Happens(k, e) => PerformHappens(env, k, e, table, ss);
      case PumpFrees(k) => PerformPumpFrees(env, k, table, ss);
      case DropsAll => PerformDrop(env, table, ss);
    }
  }

  /**
   * Over any run of accepts, failed set-ups, connection events, frees by the pump and drops, the clients are
   * what the run makes of them, and the ring is well formed and lists, in accept order, exactly those that
   * are alive.
   */
  method Serve(pump: PumpMethod, ops: seq<Op>) returns (env: Env, table: seq<Client>)
    ensures env.Valid() && env.pump == pump && table == env.accepted
    ensures env.clients == Without(table, env.gone) && Ring(env.head, Entries(env.clients))
    ensures forall c | c in table :: c in env.clients <==> !c.memoryFreed
    ensures forall c | c in table :: c in env.clients <==> c.world.conn.Alive()
    ensures |table| == |ApplyAll(pump, ops)|
    ensures forall k | 0 <= k < |table| ::
              var s := ApplyAll(pump, ops)[k];
              && table[k].dest == s.dest
              && (table[k].memoryFreed <==> !s.Alive())
              && (s.Alive() ==> table[k].world == s.world)
              && (table[k] in env.clients <==> s.Alive())
  {
    env := new Env(pump);
    table := [];
    for n := 0 to |ops|
      invariant env.Valid() && env.pump == pump && table == env.accepted && fresh(env) && fresh(env.head)
      invariant forall i | 0 <= i < |table| :: fresh(table[i]) && fresh(table[i].entry)
      invariant Matches(table, ApplyAll(pump, ops[..n]))
    {
      assert ops[..n + 1] == ops[..n] + [ops[n]];
      ApplySnoc(pump, ops[..n], ops[n]);
      table := Perform(env, ops[n], table, ApplyAll(pump, ops[..n]));
    }
    assert ops[..|ops|] == ops;
    forall c | c in table
      ensures (c in env.clients <==> !c.memoryFreed) && (c in env.clients <==> c.world.conn.Alive())
    {
      env.ListedIffLive(c);
    }
  }
}
