/** The poll set in memory: two parallel growable arrays, and the sweep that drops clients from them. */
module PollSlots {
  import opened Common
  import opened SlotSpec

  const POLLFD_INIT_N: nat := 32

  /** What poll reported about one descriptor. */
  datatype Ready = Ready(input: bool, hangup: bool, error: bool)

  const NOTHING := Ready(false, false, false)

  datatype PollFd = PollFd(fd: int, ready: Ready)

  /** The slots of the first n cells of both arrays. */
  function Zip<C>(pfds: seq<PollFd>, clients: seq<Option<C>>): (slots: seq<Slot<C>>)
    requires |pfds| == |clients|
    ensures |slots| == |pfds|
    ensures forall i :: 0 <= i < |pfds| ==> slots[i] == Slot(pfds[i].fd, clients[i])
  {
    seq(|pfds|, i requires 0 <= i < |pfds| => Slot(pfds[i].fd, clients[i]))
  }

  class PollSlots<C(0)> {
    var pfds: array<PollFd>
    var clients: array<Option<C>>
    var capacity: nat
    var count: nat

    /** Both arrays have room for capacity cells; a failed growth can leave either of them larger. */
    ghost predicate Valid()
      reads this
    {
      0 < capacity <= pfds.Length && capacity <= clients.Length && count <= capacity
    }

    ghost function Contents(): seq<Slot<C>>
      reads this, pfds, clients
      requires Valid()
    {
      Zip(pfds[..count], clients[..count])
    }

    /** server_setup_pipes: the two self-pipes take the first two slots. */
    constructor (hsk: int, rpc: int)
      ensures Valid() && fresh(pfds) && fresh(clients)
      ensures Contents() == [Slot(hsk, None), Slot(rpc, None)] && capacity == 32
    {
      pfds := new PollFd[POLLFD_INIT_N](_ => PollFd(-1, NOTHING));
      clients := new Option<C>[POLLFD_INIT_N](_ => None);
      capacity, count := POLLFD_INIT_N, 2;
      new;
      pfds[0], pfds[1] := PollFd(hsk, NOTHING), PollFd(rpc, NOTHING);
    }

    /** server_grow_pollslots; the two flags tell whether each reallocation finds memory. */
    method Grow(first: bool, second: bool) returns (ret: ErrType)
      requires Valid()
      modifies this
      ensures Valid() && count == old(count)
      ensures ret == (if first && second then SUCCESS else GROW_FAIL)
      ensures capacity == if first && second then 2 * old(capacity) else old(capacity)
      ensures (pfds == old(pfds) || fresh(pfds)) && (clients == old(clients) || fresh(clients))
      ensures pfds[..count] == old(pfds[..count]) && clients[..count] == old(clients[..count])
    {
      var newCapacity := capacity * 2;
      if !first {
        return GROW_FAIL;
      }
      var pf := new PollFd[newCapacity](_ => PollFd(-1, NOTHING));
      forall i | 0 <= i < count {
        pf[i] := pfds[i];
      }
      pfds := pf;
      if !second {
        return GROW_FAIL;
      }
      var cl := new Option<C>[newCapacity](_ => None);
      forall i | 0 <= i < count {
        cl[i] := clients[i];
      }
      clients := cl;
      capacity := newCapacity;
      ret := SUCCESS;
    }

    /** The writes that make a new last slot. */
    method Append(fd: int, client: C)
      requires Valid() && count < capacity
      modifies this`count, pfds, clients
      ensures Valid() && Contents() == old(Contents()) + [Slot(fd, Some(client))]
      ensures pfds[..count] == old(pfds[..count]) + [PollFd(fd, NOTHING)]
    {
      var i := count;
      count := count + 1;
      pfds[i] := PollFd(fd, NOTHING);
      clients[i] := Some(client);
    }

    /** server_insert_pollslots: appends a slot, or leaves every slot as it was when there is no room to be had. */
    method Insert(fd: int, client: C, first: bool, second: bool) returns (ret: ErrType)
      requires Valid()
      modifies this, pfds, clients
      ensures Valid()
      ensures ret == if old(count) < old(capacity) || (first && second) then SUCCESS else GROW_FAIL
      ensures Contents() == if ret == SUCCESS then old(Contents()) + [Slot(fd, Some(client))] else old(Contents())
      ensures pfds[..count] == if ret == SUCCESS then old(pfds[..count]) + [PollFd(fd, NOTHING)] else old(pfds[..count])
    {
      if capacity == count {
        var grown := Grow(first, second);
        if grown != SUCCESS {
          return GROW_FAIL;
        }
      }
      Append(fd, client);
      ret := SUCCESS;
    }

    /** The last slot is copied over slot i and cleared. */
    method Overwrite(i: nat)
      requires Valid() && i < count
      modifies this`count, pfds, clients
      ensures Valid() && Contents() == SwapRemoveAt(old(Contents()), i)
      ensures pfds[..count] == SwapRemoveAt(old(pfds[..count]), i)
      ensures pfds[count] == PollFd(-1, NOTHING) && clients[count] == None
    {
      var last := count - 1;
      pfds[i] := pfds[last];
      clients[i] := clients[last];
      pfds[last] := PollFd(-1, NOTHING);
      clients[last] := None;
      count := count - 1;
    }

    /** server_remove_pollslots: the first slot polling fd goes, by moving the last one into its place in both arrays. */
    method Remove(fd: int)
      requires Valid()
      modifies this`count, pfds, clients
      ensures Valid() && Contents() == RemoveFd(old(Contents()), fd)
      ensures pfds[..count] == (var i := IndexOf(old(Contents()), fd);
                                if i < old(count) then SwapRemoveAt(old(pfds[..count]), i) else old(pfds[..count]))
    {
      var i := 0;
      while i < count
        invariant i <= count && forall j :: 0 <= j < i ==> Contents()[j].fd != fd
      {
        if pfds[i].fd != fd {
          i := i + 1;
          continue;
        }
        assert IndexOf(Contents(), fd) == i;
        Overwrite(i);
        return;
      }
      assert IndexOf(Contents(), fd) == count;
    }

    // -------------------------------------------------------------- the client sweep

    /** What poll reported agrees with this reading of the descriptors. */
    ghost predicate Polled(ready: int -> Ready)
      reads this, pfds
      requires Valid()
    {
      forall p :: p in pfds[..count] ==> p.ready == ready(p.fd)
    }

    /**
     The client sweep of the main loop: an index that only moves on past a slot that is kept, because a removal
     brings an unvisited slot to the same index. budget is how many slots it gets through before RUNNING is
     cleared; gone tells which clients' requests end in a removal.
     */
    method Sweep(ghost ready: int -> Ready, gone: int -> bool, budget: nat)
      returns (ghost visited: seq<Slot<C>>, ghost removed: seq<Slot<C>>)
      requires Valid() && 2 <= count && DistinctFds(Contents()) && Polled(ready)
      modifies this`count, pfds, clients
      ensures Valid() && 2 <= count && DistinctFds(Contents())
      ensures Contents()[..2] == old(Contents())[..2]
      ensures |visited| == if budget < old(count) - 2 then budget else old(count) - 2
      ensures budget >= old(count) - 2 ==> multiset(visited) == multiset(old(Contents())[2..])
      ensures multiset(removed) <= multiset(visited) <= multiset(old(Contents())[2..])
      ensures multiset(Contents()) + multiset(removed) == multiset(old(Contents()))
      ensures forall x :: x in visited ==>
                (x in removed <==> ready(x.fd).error || ((ready(x.fd).input || ready(x.fd).hangup) && gone(x.fd)))
    {
      visited, removed := [], [];
      ghost var start := Contents();
      var i: nat, left: nat := 2, budget;
      StandingStart(start, ready, gone);
      while left > 0 && i < count
        invariant Valid() && Polled(ready) && budget == |visited| + left
        invariant Standing(start, Contents(), i, visited, removed, ready, gone)
        decreases left
      {
        ghost var slots, at := Contents(), i;
        i := Visit(i, ready, gone);
        visited, removed := TurnStands(start, slots, Contents(), at, i, visited, removed, ready, gone);
        left := left - 1;
      }
      StandingEnd(start, Contents(), i, visited, removed, ready, gone);
    }

    /**
     One turn of the sweep: slot i is kept and passed, or removed and replaced by the last one, in which case the
     same index is visited again.
     */
    method Visit(i: nat, ghost ready: int -> Ready, gone: int -> bool) returns (next: nat)
      requires Valid() && Polled(ready) && i < count
      modifies this`count, pfds, clients
      ensures Valid() && Polled(ready)
      ensures var x := old(Contents())[i];
              if ready(x.fd).error || ((ready(x.fd).input || ready(x.fd).hangup) && gone(x.fd)) then
                next == i && Contents() == RemoveFd(old(Contents()), x.fd)
              else next == i + 1 && Contents() == old(Contents())
    {
      var toRemove := Flagged(i, ready, gone);
      if !toRemove {
        next := i + 1;
      } else {
        DropPolled(pfds[i].fd, ready);
        next := i;
      }
    }

    /** What the sweep reads off slot i. */
    method Flagged(i: nat, ghost ready: int -> Ready, gone: int -> bool) returns (toRemove: bool)
      requires Valid() && Polled(ready) && i < count
      ensures toRemove == Dropped(ready(Contents()[i].fd), gone(Contents()[i].fd)) && Contents()[i].fd == pfds[i].fd
    {
      assert pfds[i] in pfds[..count];
      var rev, readFd := pfds[i].ready, pfds[i].fd;
      toRemove := false;
      if rev.error {
        toRemove := true;
      } else if rev.input || rev.hangup {
        toRemove := gone(readFd);
      }
    }

    /** A removal keeps what poll reported with the descriptor it reported it for. */
    method DropPolled(fd: int, ghost ready: int -> Ready)
      requires Valid() && Polled(ready)
      modifies this`count, pfds, clients
      ensures Valid() && Polled(ready) && Contents() == RemoveFd(old(Contents()), fd)
    {
      ghost var cells, i := pfds[..count], IndexOf(Contents(), fd);
      if i < |cells| {
        SwapRemoveMembers(cells, i);
      }
      Remove(fd);
    }
  }

  lemma SwapRemoveMembers<T>(s: seq<T>, i: nat)
    requires i < |s|
    ensures forall x :: x in SwapRemoveAt(s, i) ==> x in s
  {
  }

  /** Removing slot i by its descriptor is a swap-removal within the slots after the two self-pipes. */
  lemma RemoveFromTail<C>(slots: seq<Slot<C>>, i: nat)
    requires 2 <= i < |slots| && DistinctFds(slots)
    ensures RemoveFd(slots, slots[i].fd)[..2] == slots[..2]
    ensures RemoveFd(slots, slots[i].fd)[2..] == SwapRemoveAt(slots[2..], i - 2)
    ensures DistinctFds(RemoveFd(slots, slots[i].fd)) && |RemoveFd(slots, slots[i].fd)| == |slots| - 1
  {
    RemoveFdKeepsOthers(slots, i);
  }

  /** The sweep's verdict on one descriptor. */
  predicate Dropped(rev: Ready, gone: bool) {
    rev.error || ((rev.input || rev.hangup) && gone)
  }

  /** The first k of these client slots have been visited and kept; with the removed ones they are all that was visited. */
  ghost predicate Sweeping<C>(start: seq<Slot<C>>, slots: seq<Slot<C>>, k: nat, visited: seq<Slot<C>>, removed: seq<Slot<C>>,
                              ready: int -> Ready, gone: int -> bool)
  {
    && k <= |slots|
    && multiset(slots) + multiset(removed) == multiset(start)
    && multiset(visited) == multiset(slots[..k]) + multiset(removed)
    && (forall j :: 0 <= j < k ==> !Dropped(ready(slots[j].fd), gone(slots[j].fd)))
    && (forall x :: x in removed ==> Dropped(ready(x.fd), gone(x.fd)))
  }

  lemma SweepKeep<C>(start: seq<Slot<C>>, slots: seq<Slot<C>>, k: nat, visited: seq<Slot<C>>, removed: seq<Slot<C>>,
                     ready: int -> Ready, gone: int -> bool)
    requires Sweeping(start, slots, k, visited, removed, ready, gone) && k < |slots|
    requires !Dropped(ready(slots[k].fd), gone(slots[k].fd))
    ensures Sweeping(start, slots, k + 1, visited + [slots[k]], removed, ready, gone)
  {
    assert multiset(visited + [slots[k]]) == multiset(visited) + multiset{slots[k]};
    assert slots[..k + 1] == slots[..k] + [slots[k]];
  }

  lemma SweepDrop<C>(start: seq<Slot<C>>, slots: seq<Slot<C>>, k: nat, visited: seq<Slot<C>>, removed: seq<Slot<C>>,
                     ready: int -> Ready, gone: int -> bool)
    requires Sweeping(start, slots, k, visited, removed, ready, gone) && k < |slots|
    requires Dropped(ready(slots[k].fd), gone(slots[k].fd))
    ensures Sweeping(start, SwapRemoveAt(slots, k), k, visited + [slots[k]], removed + [slots[k]], ready, gone)
  {
    var x, after := slots[k], SwapRemoveAt(slots, k);
    SwapRemoveMultiset(slots, k);
    assert multiset(visited + [x]) == multiset(visited) + multiset{x};
    assert multiset(removed + [x]) == multiset(removed) + multiset{x};
    assert after[..k] == slots[..k];
    assert x in multiset(slots);
  }

  /** The same for a whole poll set, whose first two slots are the self-pipes and never move. */
  ghost predicate Standing<C>(start: seq<Slot<C>>, slots: seq<Slot<C>>, i: nat, visited: seq<Slot<C>>, removed: seq<Slot<C>>,
                              ready: int -> Ready, gone: int -> bool)
  {
    && 2 <= i <= |slots| && 2 <= |start| && DistinctFds(slots) && slots[..2] == start[..2]
    && Sweeping(start[2..], slots[2..], i - 2, visited, removed, ready, gone)
  }

  lemma StandingStart<C>(start: seq<Slot<C>>, ready: int -> Ready, gone: int -> bool)
    requires 2 <= |start| && DistinctFds(start)
    ensures Standing(start, start, 2, [], [], ready, gone)
  {
    assert multiset(start[2..][..0]) == multiset{};
  }

  lemma KeepStands<C>(start: seq<Slot<C>>, slots: seq<Slot<C>>, i: nat, visited: seq<Slot<C>>, removed: seq<Slot<C>>,
                      ready: int -> Ready, gone: int -> bool)
    requires Standing(start, slots, i, visited, removed, ready, gone) && i < |slots|
    requires !Dropped(ready(slots[i].fd), gone(slots[i].fd))
    ensures Standing(start, slots, i + 1, visited + [slots[i]], removed, ready, gone)
  {
    assert slots[2..][i - 2] == slots[i];
    SweepKeep(start[2..], slots[2..], i - 2, visited, removed, ready, gone);
  }

  lemma DropStands<C>(start: seq<Slot<C>>, slots: seq<Slot<C>>, i: nat, visited: seq<Slot<C>>, removed: seq<Slot<C>>,
                      ready: int -> Ready, gone: int -> bool)
    requires Standing(start, slots, i, visited, removed, ready, gone) && i < |slots|
    requires Dropped(ready(slots[i].fd), gone(slots[i].fd))
    ensures Standing(start, RemoveFd(slots, slots[i].fd), i, visited + [slots[i]], removed + [slots[i]], ready, gone)
  {
    assert slots[2..][i - 2] == slots[i];
    RemoveFromTail(slots, i);
    SweepDrop(start[2..], slots[2..], i - 2, visited, removed, ready, gone);
  }

  /** The turn of the sweep at slot i, which leaves these slots and this index. */
  lemma TurnStands<C>(start: seq<Slot<C>>, slots: seq<Slot<C>>, after: seq<Slot<C>>, i: nat, next: nat, seen: seq<Slot<C>>,
                      dropped: seq<Slot<C>>, ready: int -> Ready, gone: int -> bool)
    returns (visited: seq<Slot<C>>, removed: seq<Slot<C>>)
    requires Standing(start, slots, i, seen, dropped, ready, gone) && i < |slots|
    requires if Dropped(ready(slots[i].fd), gone(slots[i].fd)) then next == i && after == RemoveFd(slots, slots[i].fd)
             else next == i + 1 && after == slots
    ensures |visited| == |seen| + 1 && Standing(start, after, next, visited, removed, ready, gone)
  {
    visited, removed := seen + [slots[i]], dropped;
    if Dropped(ready(slots[i].fd), gone(slots[i].fd)) {
      DropStands(start, slots, i, seen, dropped, ready, gone);
      removed := dropped + [slots[i]];
    } else {
      KeepStands(start, slots, i, seen, dropped, ready, gone);
    }
  }

  lemma SweepEnd<C>(start: seq<Slot<C>>, slots: seq<Slot<C>>, k: nat, visited: seq<Slot<C>>, removed: seq<Slot<C>>,
                    ready: int -> Ready, gone: int -> bool)
    requires Sweeping(start, slots, k, visited, removed, ready, gone)
    ensures multiset(removed) <= multiset(visited) <= multiset(start)
    ensures |visited| <= |start|
    ensures k == |slots| ==> multiset(visited) == multiset(start) && |visited| == |start|
    ensures forall x :: x in visited ==> (x in removed <==> Dropped(ready(x.fd), gone(x.fd)))
  {
    assert slots == slots[..k] + slots[k..];
    assert |visited| == |multiset(visited)| && |start| == |multiset(start)|;
    forall x | x in visited ensures x in removed <==> Dropped(ready(x.fd), gone(x.fd)) {
      assert x in multiset(visited);
      if x !in removed {
        assert x in multiset(slots[..k]) && x in slots[..k];
      }
    }
  }

  lemma StandingEnd<C>(start: seq<Slot<C>>, slots: seq<Slot<C>>, i: nat, visited: seq<Slot<C>>, removed: seq<Slot<C>>,
                       ready: int -> Ready, gone: int -> bool)
    requires Standing(start, slots, i, visited, removed, ready, gone)
    ensures multiset(removed) <= multiset(visited) <= multiset(start[2..]) && |visited| <= |start| - 2
    ensures i == |slots| ==> multiset(visited) == multiset(start[2..]) && |visited| == |start| - 2
    ensures multiset(slots) + multiset(removed) == multiset(start)
    ensures 2 <= |slots| && slots[..2] == start[..2] && DistinctFds(slots)
    ensures forall x :: x in visited ==> (x in removed <==> Dropped(ready(x.fd), gone(x.fd)))
  {
    SweepEnd(start[2..], slots[2..], i - 2, visited, removed, ready, gone);
    assert slots == slots[..2] + slots[2..] && start == start[..2] + start[2..];
    assert slots[2..][..i - 2] == slots[2..i];
  }
}
