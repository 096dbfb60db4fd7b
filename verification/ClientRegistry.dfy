/** The client registry in memory: an intrusive doubly linked list of counted client records. */
module ClientRegistry {
  import opened Common
  import opened RegistrySpec
  import ObjectTable

  class ActiveClient {
    const pid: int
    const c2s: int
    const s2c: int
    var refcount: nat
    var loggedIn: bool
    var dead: bool
    var next: ActiveClient?
    var prev: ActiveClient?

    constructor (pid: int, c2s: int, s2c: int)
      ensures this.pid == pid && this.c2s == c2s && this.s2c == s2c
      ensures refcount == 1 && !loggedIn && !dead && next == null && prev == null
    {
      this.pid, this.c2s, this.s2c := pid, c2s, s2c;
      refcount, loggedIn, dead, next, prev := 1, false, false, null, null;
    }

    ghost function Record(): Cell
      reads this
    {
      Cell(pid, c2s, s2c, refcount, loggedIn, dead)
    }
  }

  /** The descriptors of these clients, in order. */
  function Descriptors(cs: seq<ActiveClient>): seq<int> {
    if cs == [] then [] else [cs[0].c2s, cs[0].s2c] + Descriptors(cs[1..])
  }

  ghost function Members(cs: seq<ActiveClient>): set<ActiveClient> {
    set c | c in cs
  }

  /** Taking client i off the rest of a list of clients. */
  lemma OneMoreGone(cs: seq<ActiveClient>, i: nat)
    requires i < |cs|
    ensures Descriptors(cs[i..]) == [cs[i].c2s, cs[i].s2c] + Descriptors(cs[i + 1..])
    ensures Members(cs[..i + 1]) == Members(cs[..i]) + {cs[i]}
  {
    assert cs[i..][1..] == cs[i + 1..];
    assert cs[..i + 1] == cs[..i] + [cs[i]];
  }

  class ClientRegistry {
    var clients: ActiveClient?
    var count: nat
    var closed: seq<int>                 // every descriptor closed so far, in order
    ghost var spine: seq<ActiveClient>   // the linked clients, front first
    ghost var heap: set<ActiveClient>    // the clients allocated and not freed

    /** next and prev lay the spine out both ways, and count is its length. */
    ghost predicate Valid()
      reads this, heap
    {
      && count == |spine|
      && Distinct(spine)
      && (forall i :: 0 <= i < |spine| ==> spine[i] in heap)
      && clients == (if spine == [] then null else spine[0])
      && (forall i, j :: 0 <= i < |spine| && j == i + 1 < |spine| ==> spine[i].next == spine[j] && spine[j].prev == spine[i])
      && (spine != [] ==> spine[0].prev == null && spine[|spine| - 1].next == null)
    }

    /** The registry as a value. */
    ghost function View(): Registry<ActiveClient>
      reads this, heap
    {
      Registry(map c | c in heap :: c.Record(), spine)
    }

    /** creg_init. */
    constructor ()
      ensures Valid() && View() == Registry(map[], []) && closed == []
    {
      clients, count, closed := null, 0, [];
      spine, heap := [], {};
    }

    /** creg_insert; room tells whether malloc finds memory. */
    method Insert(pid: int, c2s: int, s2c: int, room: bool) returns (client: ActiveClient?)
      requires Valid()
      modifies this, heap
      ensures Valid() && closed == old(closed)
      ensures client == null <==> !room
      ensures client == null ==> View() == old(View())
      ensures client != null ==> fresh(client) && View() == RegistrySpec.Insert(old(View()), client, pid, c2s, s2c)
      ensures client != null ==> spine == [client] + old(spine) && heap == old(heap) + {client}
      ensures client != null ==> client.Record() == Cell(pid, c2s, s2c, 1, false, false)
    {
      if !room {
        return null;
      }
      var newclient := new ActiveClient(pid, c2s, s2c);
      newclient.next := clients;
      if clients != null {
        clients.prev := newclient;
      }
      clients := newclient;
      count := count + 1;
      spine, heap := [newclient] + spine, heap + {newclient};
      client := newclient;
      assert View().heap == old(View()).heap[newclient := Cell(pid, c2s, s2c, 1, false, false)];
    }

    /** creg_acquire_client. */
    method Acquire(client: ActiveClient) returns (ret: ErrType)
      requires Valid() && client in heap
      modifies client`refcount
      ensures Valid() && View() == RegistrySpec.Acquire(old(View()), client)
      ensures ret == if old(client.dead) then FAIL else SUCCESS
      ensures client.refcount == old(client.refcount) + if old(client.dead) then 0 else 1
    {
      ret := FAIL;
      if !client.dead {
        client.refcount := client.refcount + 1;
        ret := SUCCESS;
      }
      assert View().heap == RegistrySpec.Acquire(old(View()), client).heap;
    }

    /** creg_release_client. A dead client is one that has been unlinked. */
    method Release(client: ActiveClient)
      requires Valid() && client in heap && client.refcount > 0
      requires client.dead ==> client !in spine
      modifies this`heap, this`closed, client`refcount
      ensures Valid() && View() == RegistrySpec.Release(old(View()), client)
      ensures closed == old(closed) + if client in heap then [] else [client.c2s, client.s2c]
      ensures client.refcount == old(client.refcount) - 1
      ensures heap == if client.dead && client.refcount == 0 then old(heap) - {client} else old(heap)
    {
      var destroy := false;
      client.refcount := client.refcount - 1;
      if client.dead && client.refcount == 0 {
        destroy := true;
      }
      assert View().heap == old(View()).heap[client := client.Record()];
      if destroy {
        Bury(client);
      }
    }

    /** The pipes of a client are closed and its memory is given back. */
    method Bury(client: ActiveClient)
      requires Valid() && client in heap && client !in spine
      modifies this`heap, this`closed
      ensures Valid() && heap == old(heap) - {client} && View() == old(View()).(heap := old(View()).heap - {client})
      ensures closed == old(closed) + [client.c2s, client.s2c] && client !in heap
    {
      closed := closed + [client.c2s, client.s2c];
      heap := heap - {client};
      assert View().heap == old(View()).heap - {client};
    }

    /** The record's part of client_markdead. */
    method MarkRecord(client: ActiveClient)
      requires Valid() && client in heap
      modifies client`dead
      ensures client.dead
      ensures Valid() && heap == old(heap) && View() == RegistrySpec.MarkDead(old(View()), client)
    {
      client.dead := true;
      assert View().heap == RegistrySpec.MarkDead(old(View()), client).heap;
    }

    /** The sweep of the object tables touches no client. */
    method SweepObjects<H(!new, ==)>(client: ActiveClient, objects: ObjectTable.Objects<H, ActiveClient>)
      requires Valid() && objects.Valid()
      modifies objects.canvases`destroyed, objects.sprites`destroyed, objects.placements`destroyed
      modifies objects.canvases.arr, objects.sprites.arr, objects.placements.arr
      ensures unchanged(this) && unchanged(heap)
      ensures objects.Valid()
      ensures ObjectTable.Bereft(old(objects.Contents()), objects.Contents(), old(objects.Destroyed()), objects.Destroyed(), client)
    {
      objects.RemoveOwned(client);
    }

    /** client_markdead: the record is marked, then every object of the client is destroyed and disowned. */
    method MarkDead<H(!new, ==)>(client: ActiveClient, objects: ObjectTable.Objects<H, ActiveClient>)
      requires Valid() && client in heap && objects.Valid()
      modifies client`dead, objects.canvases`destroyed, objects.sprites`destroyed, objects.placements`destroyed
      modifies objects.canvases.arr, objects.sprites.arr, objects.placements.arr
      ensures client.dead
      ensures Valid() && heap == old(heap) && View() == RegistrySpec.MarkDead(old(View()), client)
      ensures objects.Valid()
      ensures ObjectTable.Bereft(old(objects.Contents()), objects.Contents(), old(objects.Destroyed()), objects.Destroyed(), client)
    {
      MarkRecord(client);
      SweepObjects(client, objects);
    }

    /** Walks the list to a client's node; null when the client is not linked. */
    method Find(client: ActiveClient) returns (curr: ActiveClient?, ghost i: nat)
      requires Valid()
      ensures curr == null <==> client !in spine
      ensures curr != null ==> curr == client && i < |spine| && spine[i] == client
    {
      curr, i := clients, 0;
      while curr != null && curr != client
        invariant i <= |spine| && client !in spine[..i]
        invariant curr == if i < |spine| then spine[i] else null
        decreases |spine| - i
      {
        assert spine[..i + 1] == spine[..i] + [curr];
        curr := curr.next;
        i := i + 1;
      }
      assert curr == null ==> spine[..i] == spine;
    }

    /** Takes node i out of the list: its neighbours are joined, and nothing else moves. */
    method Splice(client: ActiveClient, ghost i: nat)
      requires Valid() && i < |spine| && spine[i] == client
      modifies this`clients, this`count, this`spine, (set c | c in spine)`next, (set c | c in spine)`prev
      ensures Valid() && spine == old(spine[..i] + spine[i + 1..])
      ensures client.next == null && client.prev == null
    {
      ghost var rest := spine[..i] + spine[i + 1..];
      assert i > 0 ==> client.prev == spine[i - 1];
      assert i + 1 < |spine| ==> client.next == spine[i + 1];
      if client.prev != null {
        client.prev.next := client.next;
      } else {
        clients := client.next;
      }
      if client.next != null {
        client.next.prev := client.prev;
      }
      count := count - 1;
      client.next, client.prev := null, null;
      spine := rest;
    }

    /** creg_unlink: takes out exactly the client's node, wherever it is; a client not in the list is left alone. */
    method Unlink(client: ActiveClient)
      requires Valid() && client in heap
      modifies this`clients, this`count, this`spine, (set c | c in spine)`next, (set c | c in spine)`prev
      ensures Valid() && View() == RegistrySpec.Unlink(old(View()), client)
      ensures client !in spine
      ensures client in old(spine) ==> client.next == null && client.prev == null
    {
      var curr, i := Find(client);
      WithoutMembers(spine, client);
      if curr == null {
        WithoutAbsent(spine, client);
        return;
      }
      WithoutRemovesOne(spine, i);
      Splice(client, i);
      assert View().heap == old(View()).heap;
    }

    /** creg_remove, the sweep of the client's objects included; nothing happens for a null client. */
    method Remove<H(!new, ==)>(client: ActiveClient?, objects: ObjectTable.Objects<H, ActiveClient>)
      requires Valid() && (client != null ==> client in heap && client.refcount > 0) && objects.Valid()
      modifies this, heap, objects.canvases`destroyed, objects.sprites`destroyed, objects.placements`destroyed
      modifies objects.canvases.arr, objects.sprites.arr, objects.placements.arr
      ensures Valid() && objects.Valid()
      ensures client == null ==> View() == old(View()) && closed == old(closed)
      ensures client == null ==> objects.Contents() == old(objects.Contents()) && objects.Destroyed() == old(objects.Destroyed())
      ensures client != null ==>
                && View() == RegistrySpec.Remove(old(View()), client)
                && closed == old(closed) + (if client in heap then [] else [client.c2s, client.s2c])
                && ObjectTable.Bereft(old(objects.Contents()), objects.Contents(), old(objects.Destroyed()), objects.Destroyed(), client)
    {
      if client != null {
        Discard(client, objects);
      }
    }

    /** creg_remove of a client there is. */
    method Discard<H(!new, ==)>(client: ActiveClient, objects: ObjectTable.Objects<H, ActiveClient>)
      requires Valid() && client in heap && client.refcount > 0 && objects.Valid()
      modifies this, heap, objects.canvases`destroyed, objects.sprites`destroyed, objects.placements`destroyed
      modifies objects.canvases.arr, objects.sprites.arr, objects.placements.arr
      ensures Valid() && View() == RegistrySpec.Remove(old(View()), client)
      ensures closed == old(closed) + (if client in heap then [] else [client.c2s, client.s2c])
      ensures objects.Valid()
      ensures ObjectTable.Bereft(old(objects.Contents()), objects.Contents(), old(objects.Destroyed()), objects.Destroyed(), client)
    {
      MarkDead(client, objects);
      Detach(client, objects);
    }

    /** The last two steps of creg_remove, on a client that is marked dead; they touch no object table. */
    method Detach<H(!new, ==)>(client: ActiveClient, ghost objects: ObjectTable.Objects<H, ActiveClient>)
      requires Valid() && client in heap && client.refcount > 0 && client.dead && objects.Valid()
      modifies this, heap
      ensures Valid() && View() == RegistrySpec.Release(RegistrySpec.Unlink(old(View()), client), client)
      ensures closed == old(closed) + (if client in heap then [] else [client.c2s, client.s2c])
      ensures objects.Valid() && objects.Contents() == old(objects.Contents()) && objects.Destroyed() == old(objects.Destroyed())
    {
      Unlink(client);
      Release(client);
    }

    /** creg_destroy: once the server is stopping, every linked client is closed and freed, each once, front first. */
    method Destroy(running: bool)
      requires Valid()
      modifies this
      ensures Valid()
      ensures running ==> View() == old(View()) && closed == old(closed)
      ensures !running ==>
                && View().linked == [] && heap == old(heap) - Members(old(spine))
                && closed == old(closed) + Descriptors(old(spine))
    {
      if running {
        return;
      }
      var curr := clients;
      clients := null;
      count := 0;
      ghost var before, i := spine, 0;
      spine := [];
      assert before[0..] == before;
      while curr != null
        invariant i <= |before| && clients == null && spine == [] && count == 0
        invariant curr == if i < |before| then before[i] else null
        invariant forall j, k :: 0 <= j < |before| && k == j + 1 < |before| ==> before[j].next == before[k]
        invariant before != [] ==> before[|before| - 1].next == null
        invariant heap == old(heap) - Members(before[..i])
        invariant closed + Descriptors(before[i..]) == old(closed) + Descriptors(before)
        decreases |before| - i
      {
        var next := curr.next;
        closed := closed + [curr.c2s, curr.s2c];
        heap := heap - {curr};
        OneMoreGone(before, i);
        curr := next;
        i := i + 1;
      }
      assert before[..i] == before;
    }
  }
}
