/**
 What each step does to whom: whose slot, link, record and descriptors it changes, and that it leaves everybody
 else's alone. Stated on the states before and after, not through the functions the steps are made of.
 */
module LifetimeEffects {
  import opened Common
  import opened RegistrySpec
  import opened SlotSpec
  import opened Commands
  import opened Lifetime
  import opened LifetimeProofs
  import opened LifetimeSteps

  /** Nothing moves in the queue, the workers or the lost references. */
  ghost predicate TasksKept(s: State, s': State) {
    s'.queue == s.queue && s'.busy == s.busy && s'.stranded == s.stranded && s'.next == s.next
  }

  /** Every client but c keeps its place in the list, its record and its slots. */
  ghost predicate OthersKept(s: State, s': State, c: Id) {
    && (forall d :: d != c ==> (d in s'.reg.linked <==> d in s.reg.linked))
    && (forall d :: d != c ==> (d in s'.reg.heap <==> d in s.reg.heap))
    && (forall d :: d != c && d in s.reg.heap ==> s'.reg.heap[d] == s.reg.heap[d])
    && (forall x :: x in s.slots && x.client != Some(c) ==> x in s'.slots)
    && (forall x :: x in s'.slots && x.client != Some(c) ==> x in s.slots)
  }

  /**
   Client c of slot k has left: its slot is gone, it is off the list, and it has given back one reference. It is dead if
   somebody still holds it, and otherwise freed, with exactly its own two descriptors closed.
   */
  ghost predicate HasLeft(s: State, s': State, k: nat, c: Id)
    requires k < |s.slots| && c in s.reg.heap
  {
    && multiset(s'.slots) == multiset(s.slots) - multiset{s.slots[k]}
    && c !in s'.reg.linked && OthersKept(s, s', c) && TasksKept(s, s') && s'.pipe == s.pipe
    && if s.reg.heap[c].refcount > 1 then
         && c in s'.reg.heap && s'.reg.heap[c] == s.reg.heap[c].(dead := true, refcount := s.reg.heap[c].refcount - 1)
         && s'.fds == s.fds && s'.freed == s.freed
       else
         && c !in s'.reg.heap
         && s'.fds == s.fds - {s.reg.heap[c].c2s, s.reg.heap[c].s2c} && s'.freed == s.freed + multiset{c}
  }

  lemma DropSlotEffects(s: State, k: nat)
    requires Inv(s) && HasClient(s, k)
    ensures var c := s.slots[k].client.value; c in s.reg.heap && c in s.reg.linked
    ensures var c, o := s.slots[k].client.value, DropSlot(s, s.slots[k].fd, s.slots[k].client.value);
            o.Fine? && HasLeft(s, o.value, k, c)
  {
    var c := s.slots[k].client.value;
    assert s.slots[k] in s.slots;
    RemoveFdKeepsOthers(s.slots, k);
    SwapRemoveMultiset(s.slots, k);
    SlotDropped(s, k);
    var s1 := s.(slots := RemoveFd(s.slots, s.slots[k].fd));
    RemoveShape(s1, c);
    DetachedKeeps(s1, c);
    ReleaseKeeps(Detached(s1, c), c);
    WithoutMembers(s.reg.linked, c);
    assert Holders(s, c) == Refcount(s, c);
    SlotsOfOthers(s, k);
  }

  /** A linked client has one slot. */
  lemma SlotsOfOthers(s: State, k: nat)
    requires Inv(s) && HasClient(s, k)
    ensures forall x :: x in s.slots && x.client != s.slots[k].client ==> x != s.slots[k]
  {
  }

  lemma HangUpStep(s: State, i: nat)
    requires HasClient(s, i)
    ensures Next(s, ClientGone(i)) == DropSlot(s, s.slots[i].fd, s.slots[i].client.value)
  {
  }

  /** A hang-up makes the client of that slot leave, and nobody else. */
  lemma HangUpEffects(s: State, i: nat)
    requires Inv(s) && HasClient(s, i)
    ensures s.slots[i].client.value in s.reg.heap
    ensures Next(s, ClientGone(i)).Fine? && HasLeft(s, Next(s, ClientGone(i)).value, i, s.slots[i].client.value)
  {
    DropSlotEffects(s, i);
    HangUpStep(s, i);
  }

  /** A reference to c is taken and a task for it queued, or its reference lost; nothing else happens. */
  ghost predicate HasAsked(s: State, s': State, c: Id, kind: TaskType, queued: bool)
    requires c in s.reg.heap
  {
    && s'.reg.linked == s.reg.linked
    && s'.reg.heap == s.reg.heap[c := s.reg.heap[c].(refcount := s.reg.heap[c].refcount + 1)]
    && s'.queue == (if queued then s.queue + [ClientTask(kind, c)] else s.queue)
    && s'.stranded == (if queued then s.stranded else s.stranded + multiset{c})
    && s'.slots == s.slots && s'.busy == s.busy && s'.pipe == s.pipe && s'.fds == s.fds && s'.freed == s.freed && s'.next == s.next
  }

  lemma SpeakerIsAlive(s: State, i: nat)
    requires Inv(s) && HasClient(s, i)
    ensures s.slots[i].client.value in s.reg.heap && !s.reg.heap[s.slots[i].client.value].dead
  {
    assert s.slots[i] in s.slots;
  }

  lemma LineStep(s: State, i: nat, cmd: string, queued: bool)
    requires HasClient(s, i) && s.slots[i].client.value in s.reg.heap && !s.reg.heap[s.slots[i].client.value].dead
    ensures var c := s.slots[i].client.value;
            var (remove, effects) := Reaction(Meaning(cmd), s.reg.heap[c].loggedIn, false);
            Next(s, ClientSays(i, cmd, queued)) ==
            if remove then DropSlot(Applied(s, c, effects, queued), s.slots[i].fd, c) else Fine(Applied(s, c, effects, queued))
  {
  }

  /** A Disconnect makes the client of that slot leave, and nobody else. */
  lemma DisconnectEffects(s: State, i: nat, cmd: string, queued: bool)
    requires Inv(s) && HasClient(s, i) && StartsWith(cmd, "Disconnect")
    ensures s.slots[i].client.value in s.reg.heap
    ensures Next(s, ClientSays(i, cmd, queued)).Fine?
    ensures HasLeft(s, Next(s, ClientSays(i, cmd, queued)).value, i, s.slots[i].client.value)
  {
    SpeakerIsAlive(s, i);
    LineStep(s, i, cmd, queued);
    assert Meaning(cmd) == Disconnect;
    assert Applied(s, s.slots[i].client.value, [], queued) == s;
    DropSlotEffects(s, i);
  }

  /** A request takes one reference to the client of that slot and queues one task of its kind for that client. */
  lemma AskingEffects(s: State, i: nat, cmd: string, queued: bool, kind: TaskType)
    requires Inv(s) && HasClient(s, i) && s.slots[i].client.value in s.reg.heap
    requires Requests(cmd, s.reg.heap[s.slots[i].client.value].loggedIn, kind)
    ensures Next(s, ClientSays(i, cmd, queued)).Fine?
    ensures HasAsked(s, Next(s, ClientSays(i, cmd, queued)).value, s.slots[i].client.value, kind, queued)
  {
    SpeakerIsAlive(s, i);
    LineStep(s, i, cmd, queued);
    RequestReaction(cmd, s.reg.heap[s.slots[i].client.value].loggedIn, kind);
    AskedEffects(s, s.slots[i].client.value, kind, cmd[|Keyword(kind)|..], queued);
  }

  /** Any other line does nothing. */
  lemma IdleLineEffects(s: State, i: nat, cmd: string, queued: bool)
    requires Inv(s) && HasClient(s, i) && s.slots[i].client.value in s.reg.heap && !StartsWith(cmd, "Disconnect")
    requires forall kind :: !Requests(cmd, s.reg.heap[s.slots[i].client.value].loggedIn, kind)
    ensures Next(s, ClientSays(i, cmd, queued)) == Fine(s)
  {
    var c := s.slots[i].client.value;
    SpeakerIsAlive(s, i);
    LineStep(s, i, cmd, queued);
    IdleReaction(cmd, s.reg.heap[c].loggedIn);
    assert Applied(s, c, [], queued) == s;
  }

  lemma AskedEffects(s: State, c: Id, kind: TaskType, args: string, queued: bool)
    requires c in s.reg.heap && !s.reg.heap[c].dead
    ensures HasAsked(s, Applied(s, c, [Acquired, Enqueued(kind, args)], queued), c, kind, queued)
  {
    var effects := [Acquired, Enqueued(kind, args)];
    var s1 := s.(reg := Acquire(s.reg, c));
    var s2 := if queued then s1.(queue := s1.queue + [ClientTask(kind, c)]) else s1.(stranded := s1.stranded + multiset{c});
    assert effects[1..] == [Enqueued(kind, args)] && effects[1..][1..] == [];
    assert Applied(s2, c, [], queued) == s2;
    assert Applied(s1, c, effects[1..], queued) == s2;
  }

  // ---------------------------------------------------------------- results

  /** Everything but the registry, the poll set and the descriptors is as it was, the oldest result read. */
  ghost predicate OneRead(s: State, s': State)
    requires s.pipe != []
  {
    TasksKept(s, s') && s'.pipe == s.pipe[1..]
  }

  /**
   A finished handshake gets a client with its pid and descriptors, at the front of the list with one reference, and a
   poll slot on its read end; without memory for the client or the slot, both its descriptors are closed instead, and
   the registry and the poll set are as before.
   */
  lemma HandshakeEffects(s: State, inserted: bool, slotted: bool)
    requires Inv(s) && s.pipe != [] && s.pipe[0].HskOk?
    ensures Next(s, ReadResult(inserted, slotted)).Fine?
    ensures var r, s' := s.pipe[0], Next(s, ReadResult(inserted, slotted)).value;
            && OneRead(s, s')
            && s'.freed == (if inserted && !slotted then s.freed + multiset{r.conn} else s.freed)
            && if inserted && slotted then
                 && s'.reg.heap == s.reg.heap[r.conn := Cell(r.pid, r.c2s, r.s2c, 1, false, false)]
                 && s'.reg.linked == [r.conn] + s.reg.linked && s'.slots == s.slots + [Slot(r.c2s, Some(r.conn))] && s'.fds == s.fds
               else
                 && s'.reg.heap.Keys == s.reg.heap.Keys && (forall d :: d in s.reg.heap ==> s'.reg.heap[d] == s.reg.heap[d])
                 && s'.reg.linked == s.reg.linked && s'.slots == s.slots && s'.fds == s.fds - {r.c2s, r.s2c}
  {
    var r := s.pipe[0];
    AdmitKeeps(s, ReadResult(inserted, slotted));
    assert Pending(s, r);
    if inserted && !slotted {
      UnslottedEffects(s);
    }
  }

  lemma UnslottedEffects(s: State)
    requires Inv(s) && s.pipe != [] && s.pipe[0].HskOk?
    ensures var r := s.pipe[0];
            var o := RemoveClient(Registered(s), r.conn);
            && o.Fine? && OneRead(s, o.value) && o.value.freed == s.freed + multiset{r.conn} && o.value.reg.heap.Keys == s.reg.heap.Keys
            && (forall d :: d in s.reg.heap ==> o.value.reg.heap[d] == s.reg.heap[d])
            && o.value.reg.linked == s.reg.linked && o.value.slots == s.slots && o.value.fds == s.fds - {r.c2s, r.s2c}
  {
    var r, s1 := s.pipe[0], Registered(s);
    assert Pending(s, r);
    RegisteredKeeps(s);
    RemoveShape(s1, r.conn);
    DetachedKeeps(s1, r.conn);
    ReleaseKeeps(Detached(s1, r.conn), r.conn);
    assert Holders(s1, r.conn) == Refcount(s1, r.conn);
    assert s1.reg.heap[r.conn] == Cell(r.pid, r.c2s, r.s2c, 1, false, false);
  }

  /** The same, from the release on. */
  lemma ReplyEffects(p: State, c: Id, login: bool)
    requires c in p.reg.heap && p.reg.heap[c].refcount > 0 && ReleaseRef(p, c) == Fine(Lowered(p, c))
    ensures Reply(p, c, login).Fine?
    ensures var s' := Reply(p, c, login).value;
            && s'.(reg := p.reg) == p && s'.reg.linked == p.reg.linked
            && s'.reg.heap == p.reg.heap[c := p.reg.heap[c].(refcount := p.reg.heap[c].refcount - 1,
                                                            loggedIn := p.reg.heap[c].loggedIn || login)]
  {
  }

  /** An RPC_DONE or AUTH_OK result takes one reference from its own client, and AUTH_OK logs it in; nothing else changes. */
  lemma AnswerEffects(s: State, e: Event)
    requires Inv(s) && e.ReadResult? && Enabled(s, e) && Guard(s, e)
    requires s.pipe[0].ClientResult? && Accepted(s.pipe[0].verdict)
    ensures Next(s, e).Fine? && s.pipe[0].client in s.reg.heap && s.reg.heap[s.pipe[0].client].refcount > 0
    ensures var c, s' := s.pipe[0].client, Next(s, e).value;
            && OneRead(s, s') && s'.slots == s.slots && s'.fds == s.fds && s'.freed == s.freed && s'.reg.linked == s.reg.linked
            && s'.reg.heap == s.reg.heap[c := s.reg.heap[c].(refcount := s.reg.heap[c].refcount - 1,
                                                            loggedIn := s.reg.heap[c].loggedIn || s.pipe[0].verdict == AUTH_OK)]
  {
    ResultStep(s, e);
    ResultReleases(s);
    ReplyEffects(Popped(s), s.pipe[0].client, s.pipe[0].verdict == AUTH_OK);
  }

  /** s after its oldest result has been read and the reference it carried given back. */
  ghost function Given(s: State): State
    requires s.pipe != [] && s.pipe[0].ClientResult?
    requires s.pipe[0].client in s.reg.heap && s.reg.heap[s.pipe[0].client].refcount > 0
  {
    var c := s.pipe[0].client;
    s.(pipe := s.pipe[1..], reg := s.reg.(heap := s.reg.heap[c := s.reg.heap[c].(refcount := s.reg.heap[c].refcount - 1)]))
  }

  lemma GivenIsLowered(s: State)
    requires s.pipe != [] && s.pipe[0].ClientResult?
    requires s.pipe[0].client in s.reg.heap && s.reg.heap[s.pipe[0].client].refcount > 0
    ensures Given(s) == Lowered(Popped(s), s.pipe[0].client)
  {
  }

  /** The main loop's removal of a linked client, as HasLeft tells it. */
  lemma LinkedClientLeaves(s: State, c: Id)
    requires Inv(s) && c in s.reg.linked && c in s.reg.heap
    ensures exists k: nat :: HasClient(s, k) && s.slots[k].client == Some(c)
                        && DropSlot(s, s.reg.heap[c].c2s, c).Fine? && HasLeft(s, DropSlot(s, s.reg.heap[c].c2s, c).value, k, c)
  {
    var k := SlotOf(s, c);
    DropSlotEffects(s, k);
    assert HasClient(s, k) && s.slots[k].client == Some(c);
  }

  /** An AUTH_NO or AUTH_UN result takes one reference from its own client, and then makes that client leave, and nobody else. */
  lemma RejectEffects(s: State, e: Event)
    requires Inv(s) && e.ReadResult? && Enabled(s, e) && Guard(s, e)
    requires s.pipe[0].ClientResult? && !Accepted(s.pipe[0].verdict)
    ensures Next(s, e).Fine? && s.pipe[0].client in s.reg.heap && s.reg.heap[s.pipe[0].client].refcount > 0
    ensures s.pipe[0].client in Given(s).reg.heap
    ensures exists k: nat :: HasClient(s, k) && s.slots[k].client == Some(s.pipe[0].client)
                        && HasLeft(Given(s), Next(s, e).value, k, s.pipe[0].client)
  {
    ResultStep(s, e);
    ResultReleases(s);
    var c, p := s.pipe[0].client, Popped(s);
    assert Holders(p, c) > 0;
    GivenIsLowered(s);
    LinkedClientLeaves(Lowered(p, c), c);
    assert Given(s).slots == s.slots;
  }

  // ---------------------------------------------------------------- the workers

  /** Nothing changes in the registry, the poll set or who was freed. */
  ghost predicate ClientsKept(s: State, s': State) {
    s'.reg == s.reg && s'.slots == s.slots && s'.freed == s.freed
  }

  /** A handshake request queues one handshake task for its pid, or none when there is no memory. */
  lemma RequestEffects(s: State, pid: int, queued: bool)
    ensures var o := Next(s, HandshakeRequest(pid, queued));
            && o.Fine? && ClientsKept(s, o.value) && o.value.queue == (if queued then s.queue + [Handshake(pid)] else s.queue)
            && o.value.busy == s.busy && o.value.pipe == s.pipe && o.value.stranded == s.stranded && o.value.fds == s.fds
  {
  }

  /** A worker takes the oldest task. */
  lemma TakeEffects(s: State)
    requires s.queue != []
    ensures var o := Next(s, Take);
            && o.Fine? && ClientsKept(s, o.value) && [s.queue[0]] + o.value.queue == s.queue && o.value.busy == s.busy + [s.queue[0]]
            && o.value.pipe == s.pipe && o.value.stranded == s.stranded && o.value.fds == s.fds
  {
  }

  lemma WithoutTaskMultiset(ts: seq<Task>, i: nat)
    requires i < |ts|
    ensures multiset(WithoutTask(ts, i)) == multiset(ts) - multiset{ts[i]}
  {
    assert ts == ts[..i] + [ts[i]] + ts[i + 1..];
  }

  /**
   A worker that finishes a client's task posts that verdict for that task's client; a barrier's, or one that finds no
   room in the pipe, loses the reference of that client instead. The task is done with, and all others stay.
   */
  lemma FinishEffects(s: State, i: nat, verdict: Verdict, posted: bool)
    requires Enabled(s, Finished(i, verdict, posted))
    ensures var o, t := Next(s, Finished(i, verdict, posted)), s.busy[i];
            && o.Fine? && ClientsKept(s, o.value) && o.value.queue == s.queue && o.value.fds == s.fds
            && multiset(o.value.busy) == multiset(s.busy) - multiset{t}
            && (if posted && t.kind != BARRIER then
                  o.value.pipe == s.pipe + [ClientResult(verdict, t.client)] && o.value.stranded == s.stranded
                else o.value.pipe == s.pipe && o.value.stranded == s.stranded + multiset{t.client})
  {
    WithoutTaskMultiset(s.busy, i);
  }

  /** A worker that finishes a handshake has opened its two descriptors for a new connection, and posts them with its pid. */
  lemma OpenEffects(s: State, i: nat, c2s: int, s2c: int, posted: bool)
    requires Enabled(s, Opened(i, c2s, s2c, posted))
    ensures var o := Next(s, Opened(i, c2s, s2c, posted));
            && o.Fine? && ClientsKept(s, o.value) && o.value.queue == s.queue && o.value.stranded == s.stranded
            && multiset(o.value.busy) == multiset(s.busy) - multiset{s.busy[i]} && o.value.next == s.next + 1
            && o.value.fds == s.fds + map[c2s := ReadEnd(s.next), s2c := WriteEnd(s.next)]
            && o.value.pipe == (if posted then s.pipe + [HskOk(s.busy[i].pid, c2s, s2c, s.next)] else s.pipe)
  {
    WithoutTaskMultiset(s.busy, i);
  }

  /** A handshake that fails leaves nothing behind. */
  lemma OpenFailedEffects(s: State, i: nat)
    requires Enabled(s, OpenFailed(i))
    ensures var o := Next(s, OpenFailed(i));
            && o.Fine? && ClientsKept(s, o.value) && o.value.queue == s.queue && o.value.pipe == s.pipe && o.value.fds == s.fds
            && multiset(o.value.busy) == multiset(s.busy) - multiset{s.busy[i]} && o.value.stranded == s.stranded
  {
    WithoutTaskMultiset(s.busy, i);
  }

  // ---------------------------------------------------------------- what can happen

  /** Nothing the server can meet is ruled out: every linked client can speak and hang up, every task can be taken and finish. */
  lemma EverythingCanHappen(s: State)
    requires Inv(s)
    ensures forall pid, queued :: Enabled(s, HandshakeRequest(pid, queued))
    ensures s.queue != [] ==> Enabled(s, Take)
    ensures forall c :: c in s.reg.linked ==>
              exists i: nat :: HasClient(s, i) && s.slots[i].client == Some(c) && Enabled(s, ClientGone(i))
                          && forall cmd, queued :: Enabled(s, ClientSays(i, cmd, queued))
    ensures forall i: nat :: i < |s.busy| && s.busy[i].Handshake? ==>
              && Enabled(s, OpenFailed(i))
              && forall c2s, s2c, posted :: c2s !in s.fds && s2c !in s.fds && c2s != s2c ==> Enabled(s, Opened(i, c2s, s2c, posted))
    ensures forall i: nat, verdict, posted ::
              i < |s.busy| && s.busy[i].ClientTask? && (verdict != RPC_DONE <==> s.busy[i].kind == AUTHORISE) ==>
              Enabled(s, Finished(i, verdict, posted))
    ensures s.pipe != [] ==> forall inserted, slotted :: Enabled(s, ReadResult(inserted, slotted))
  {
    forall c | c in s.reg.linked
      ensures exists i: nat :: HasClient(s, i) && s.slots[i].client == Some(c) && Enabled(s, ClientGone(i))
                          && forall cmd, queued :: Enabled(s, ClientSays(i, cmd, queued))
    {
      var k := SlotOf(s, c);
      assert Enabled(s, ClientGone(k)) && forall cmd, queued :: Enabled(s, ClientSays(k, cmd, queued));
    }
  }
}
