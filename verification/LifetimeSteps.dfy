/** One lemma for each kind of step, then the theorem about all of them. */
module LifetimeSteps {
  import opened Common
  import opened RegistrySpec
  import opened SlotSpec
  import opened Commands
  import opened Lifetime
  import opened LifetimeProofs

  // ---------------------------------------------------------------- the workers

  /** Moving a reference between the queue, a worker, the pipe and the lost ones changes no count. */
  ghost predicate Moves(s: State, s': State) {
    && s'.reg == s.reg && s'.slots == s.slots && s'.freed == s.freed
    && forall c: Id :: Outside(s', c) == Outside(s, c)
  }

  lemma MovesKeep(s: State, s': State)
    requires Inv(s) && Moves(s, s') && s.next <= s'.next && Descriptors(s')
    ensures Inv(s')
  {
    forall c: Id ensures Holders(s', c) == Refcount(s', c) {
      assert Holders(s, c) == Refcount(s, c) && Outside(s', c) == Outside(s, c);
    }
  }

  lemma HandshakeRequestKeeps(s: State, e: Event)
    requires Inv(s) && e.HandshakeRequest?
    ensures Next(s, e).Fine? && Inv(Next(s, e).value)
  {
    var s' := Next(s, e).value;
    forall c: Id ensures Outside(s', c) == Outside(s, c) {
      TasksAppend(s.queue, Handshake(e.pid), c);
    }
    SameEndsKeeps(s, s');
    MovesKeep(s, s');
  }

  lemma TakeKeeps(s: State)
    requires Inv(s) && Enabled(s, Take)
    ensures Next(s, Take).Fine? && Inv(Next(s, Take).value)
  {
    var s' := Next(s, Take).value;
    forall c: Id ensures Outside(s', c) == Outside(s, c) {
      TasksAppend(s.busy, s.queue[0], c);
    }
    SameEndsKeeps(s, s');
    MovesKeep(s, s');
  }

  lemma OpenFailedKeeps(s: State, e: Event)
    requires Inv(s) && e.OpenFailed? && Enabled(s, e)
    ensures Next(s, e).Fine? && Inv(Next(s, e).value)
  {
    var s' := Next(s, e).value;
    forall c: Id ensures Outside(s', c) == Outside(s, c) {
      TasksWithout(s.busy, e.i, c);
    }
    SameEndsKeeps(s, s');
    MovesKeep(s, s');
  }

  lemma OpenedKeeps(s: State, e: Event)
    requires Inv(s) && e.Opened? && Enabled(s, e)
    ensures Next(s, e).Fine? && Inv(Next(s, e).value)
  {
    var s' := Next(s, e).value;
    var r := HskOk(s.busy[e.i].pid, e.c2s, e.s2c, s.next);
    forall c: Id ensures Outside(s', c) == Outside(s, c) {
      TasksWithout(s.busy, e.i, c);
      ResultsAppend(s.pipe, r, c);
    }
    assert Pending(s', r);
    forall c | c in s'.reg.heap ensures c < s'.next && Owns(s', c, s'.reg.heap[c].c2s, s'.reg.heap[c].s2c) {
      assert Owns(s, c, s.reg.heap[c].c2s, s.reg.heap[c].s2c);
    }
    forall i | 0 <= i < |s'.pipe| && s'.pipe[i].HskOk? ensures Pending(s', s'.pipe[i]) {
      if i < |s.pipe| {
        assert Pending(s, s.pipe[i]);
      }
    }
    forall i, j | 0 <= i < j < |s'.pipe| && s'.pipe[i].HskOk? && s'.pipe[j].HskOk?
      ensures s'.pipe[i].conn != s'.pipe[j].conn
    {
      assert Pending(s, s.pipe[i]);
    }
    MovesKeep(s, s');
  }

  lemma FinishedKeeps(s: State, e: Event)
    requires Inv(s) && e.Finished? && Enabled(s, e)
    ensures Next(s, e).Fine? && Inv(Next(s, e).value)
  {
    var s' := Next(s, e).value;
    var r := ClientResult(e.verdict, s.busy[e.i].client);
    forall c: Id ensures Outside(s', c) == Outside(s, c) {
      TasksWithout(s.busy, e.i, c);
      ResultsAppend(s.pipe, r, c);
    }
    assert Descriptors(s') by {
      forall i | 0 <= i < |s'.pipe| && s'.pipe[i].HskOk? ensures Pending(s', s'.pipe[i]) {
        assert Pending(s, s.pipe[i]);
      }
    }
    MovesKeep(s, s');
  }

  // ---------------------------------------------------------------- the poll set

  /** A linked client's slot, by position. */
  lemma SlotOf(s: State, c: Id) returns (k: nat)
    requires SlotsAgree(s) && c in s.reg.linked
    ensures HasClient(s, k) && c in s.reg.heap && s.slots[k] == Slot(s.reg.heap[c].c2s, Some(c))
  {
    var x := Slot(s.reg.heap[c].c2s, Some(c));
    assert x in s.slots;
    var i :| 0 <= i < |s.slots| && s.slots[i] == x;
    k := i;
  }

  /** The poll set after slot k has gone, while its client is still linked. */
  lemma SlotDropped(s: State, k: nat)
    requires Inv(s) && HasClient(s, k)
    ensures var s' := s.(slots := RemoveFd(s.slots, s.slots[k].fd));
            Ledger(s') && Frame(s')
  {
    var s' := s.(slots := RemoveFd(s.slots, s.slots[k].fd));
    RemoveFdKeepsOthers(s.slots, k);
    forall c: Id ensures Holders(s', c) == Refcount(s', c) {
      assert Holders(s, c) == Refcount(s, c);
    }
    forall i | 0 <= i < |s'.pipe| && s'.pipe[i].HskOk? ensures Pending(s', s'.pipe[i]) {
      assert Pending(s, s.pipe[i]);
    }
  }

  /** What is left in the poll set when slot k has gone: the slots of the other linked clients. */
  lemma SlotsLeft(s: State, k: nat)
    requires Inv(s) && HasClient(s, k)
    ensures var c, slots := s.slots[k].client.value, RemoveFd(s.slots, s.slots[k].fd);
            && c in s.reg.linked
            && (forall x :: x in slots && x.client.Some? ==>
                              && x in s.slots && x.client.value != c && x.client.value in s.reg.linked && x.client.value in s.reg.heap
                              && x.fd == s.reg.heap[x.client.value].c2s)
            && (forall d :: d in s.reg.linked && d != c ==> d in s.reg.heap && Slot(s.reg.heap[d].c2s, Some(d)) in slots)
  {
    var c, slots := s.slots[k].client.value, RemoveFd(s.slots, s.slots[k].fd);
    assert s.slots[k] in s.slots;
    RemoveFdKeepsOthers(s.slots, k);
    forall x | x in slots && x.client.Some?
      ensures x in s.slots && x.client.value != c && x.client.value in s.reg.linked && x.client.value in s.reg.heap
      ensures x.fd == s.reg.heap[x.client.value].c2s
    {
      assert x in s.slots && x != s.slots[k];
    }
    forall d | d in s.reg.linked && d != c ensures d in s.reg.heap && Slot(s.reg.heap[d].c2s, Some(d)) in slots {
      assert Slot(s.reg.heap[d].c2s, Some(d)) in s.slots;
    }
  }

  /** Without slot k and without its client, the poll set and the list still agree. */
  lemma SlotsAgreeWithout(s: State, k: nat, s': State)
    requires Inv(s) && HasClient(s, k)
    requires s'.slots == RemoveFd(s.slots, s.slots[k].fd)
    requires s'.reg.linked == Without(s.reg.linked, s.slots[k].client.value)
    requires forall d :: d != s.slots[k].client.value && d in s.reg.heap ==> d in s'.reg.heap && s'.reg.heap[d] == s.reg.heap[d]
    ensures SlotsAgree(s')
  {
    SlotsLeft(s, k);
    RemoveFdKeepsOthers(s.slots, k);
    WithoutMembers(s.reg.linked, s.slots[k].client.value);
  }

  /** Dropping a slot and removing its client, as the sweep does for a client that has gone. */
  lemma DropSlotKeeps(s: State, k: nat)
    requires Inv(s) && HasClient(s, k)
    ensures DropSlot(s, s.slots[k].fd, s.slots[k].client.value).Fine?
    ensures Inv(DropSlot(s, s.slots[k].fd, s.slots[k].client.value).value)
  {
    var c := s.slots[k].client.value;
    assert s.slots[k] in s.slots;
    SlotDropped(s, k);
    var s1 := s.(slots := RemoveFd(s.slots, s.slots[k].fd));
    RemoveKeeps(s1, c);
    SlotsAgreeWithout(s, k, DropSlot(s, s.slots[k].fd, c).value);
  }

  // ---------------------------------------------------------------- requests from clients

  /** A linked client is never refused a reference. */
  lemma SaysKeeps(s: State, e: Event)
    requires Inv(s) && e.ClientSays? && Enabled(s, e)
    ensures Next(s, e).Fine? && Inv(Next(s, e).value)
  {
    var c := s.slots[e.slot].client.value;
    assert s.slots[e.slot] in s.slots;
    var cell := s.reg.heap[c];
    var (remove, effects) := Reaction(Meaning(e.cmd), cell.loggedIn, cell.dead);
    assert !cell.dead;
    if remove {
      assert effects == [] && Applied(s, c, effects, e.queued) == s;
      DropSlotKeeps(s, e.slot);
    } else if effects != [] {
      AcquireAndQueue(s, c, effects, e.queued);
    }
  }

  lemma AcquireAndQueue(s: State, c: Id, effects: seq<Effect>, queued: bool)
    requires Inv(s) && c in s.reg.linked && c in s.reg.heap
    requires |effects| == 2 && effects[0] == Acquired && effects[1].Enqueued?
    ensures Inv(Applied(s, c, effects, queued))
  {
    var kind := effects[1].kind;
    var s1 := s.(reg := Acquire(s.reg, c));
    var s2 := if queued then s1.(queue := s1.queue + [ClientTask(kind, c)]) else s1.(stranded := s1.stranded + multiset{c});
    assert Applied(s, c, effects, queued) == s2 by {
      assert effects[1..][1..] == [];
      assert Applied(s2, c, [], queued) == s2;
      assert Applied(s1, c, effects[1..], queued) == s2;
    }
    forall d: Id ensures Holders(s2, d) == Refcount(s2, d) {
      assert Holders(s, d) == Refcount(s, d);
      TasksAppend(s.queue, ClientTask(kind, c), d);
    }
    SameEndsKeeps(s, s2);
  }

  // ---------------------------------------------------------------- results

  /** s after its oldest result has been read. */
  ghost function Popped(s: State): State
    requires s.pipe != []
  {
    s.(pipe := s.pipe[1..])
  }

  lemma PoppedKeeps(s: State)
    requires Inv(s) && s.pipe != []
    ensures Frame(Popped(s)) && SlotsAgree(Popped(s))
    ensures forall c: Id :: Holders(Popped(s), c) + ResultHolds(s.pipe[0], c) == Refcount(s, c)
    ensures s.pipe[0].HskOk? ==> Ledger(Popped(s))
    ensures s.pipe[0].ClientResult? ==> LedgerBut(Popped(s), s.pipe[0].client)
  {
    var s' := Popped(s);
    forall c: Id ensures Holders(s', c) + ResultHolds(s.pipe[0], c) == Refcount(s, c) {
      assert Holders(s, c) == Refcount(s, c);
    }
    forall c: Id | ResultHolds(s.pipe[0], c) == 0 ensures Holders(s', c) == Refcount(s', c) {
    }
    forall i | 0 <= i < |s'.pipe| && s'.pipe[i].HskOk? ensures Pending(s', s'.pipe[i]) {
      assert Pending(s, s.pipe[i + 1]);
    }
  }

  /** The pending handshake's descriptors are closed when no client can be allocated for it. */
  lemma RefusedKeeps(s: State)
    requires Inv(s) && s.pipe != [] && s.pipe[0].HskOk?
    ensures var o := CloseBoth(Popped(s), s.pipe[0].c2s, s.pipe[0].s2c);
            o.Fine? && Inv(o.value)
  {
    PoppedKeeps(s);
    var p, r := Popped(s), s.pipe[0];
    assert Pending(s, r);
    var s' := p.(fds := p.fds - {r.c2s, r.s2c});
    assert CloseBoth(p, r.c2s, r.s2c) == Fine(s');
    forall c: Id ensures Holders(s', c) == Refcount(s', c) {
      assert Holders(p, c) == Refcount(p, c);
    }
    forall c | c in s'.reg.heap ensures c < s'.next && Owns(s', c, s'.reg.heap[c].c2s, s'.reg.heap[c].s2c) {
      assert Owns(s, c, s.reg.heap[c].c2s, s.reg.heap[c].s2c);
    }
    forall i | 0 <= i < |s'.pipe| && s'.pipe[i].HskOk? ensures Pending(s', s'.pipe[i]) {
      assert Pending(s, s.pipe[i + 1]);
    }
  }

  /** s with the pending handshake's client allocated and linked, its poll slot still to come. */
  ghost function Registered(s: State): State
    requires s.pipe != [] && s.pipe[0].HskOk?
  {
    var r := s.pipe[0];
    Popped(s).(reg := Insert(s.reg, r.conn, r.pid, r.c2s, r.s2c))
  }

  lemma RegisteredKeeps(s: State)
    requires Inv(s) && s.pipe != [] && s.pipe[0].HskOk?
    ensures Ledger(Registered(s)) && Frame(Registered(s)) && s.pipe[0].conn !in s.reg.linked
  {
    PoppedKeeps(s);
    var p, r, s' := Popped(s), s.pipe[0], Registered(s);
    assert Pending(s, r);
    assert Holders(p, r.conn) == Refcount(p, r.conn) == 0;
    forall c: Id ensures Holders(s', c) == Refcount(s', c) {
      assert Holders(p, c) == Refcount(p, c);
    }
    forall c | c in s'.reg.heap ensures c < s'.next && Owns(s', c, s'.reg.heap[c].c2s, s'.reg.heap[c].s2c) {
      if c != r.conn {
        assert Owns(s, c, s.reg.heap[c].c2s, s.reg.heap[c].s2c);
      }
    }
    forall i | 0 <= i < |s'.pipe| && s'.pipe[i].HskOk? ensures Pending(s', s'.pipe[i]) {
      assert Pending(s, s.pipe[i + 1]);
    }
  }

  lemma SlottedKeeps(s: State)
    requires Inv(s) && s.pipe != [] && s.pipe[0].HskOk?
    ensures var r, s1 := s.pipe[0], Registered(s);
            Inv(s1.(slots := s1.slots + [Slot(r.c2s, Some(r.conn))]))
  {
    RegisteredKeeps(s);
    var r, s1 := s.pipe[0], Registered(s);
    assert Pending(s, r);
    var x := Slot(r.c2s, Some(r.conn));
    var s' := s1.(slots := s1.slots + [x]);
    forall c: Id ensures Holders(s', c) == Refcount(s', c) {
      assert Holders(s1, c) == Refcount(s1, c);
    }
    SlottedAgrees(s, s', x);
    forall i | 0 <= i < |s'.pipe| && s'.pipe[i].HskOk? ensures Pending(s', s'.pipe[i]) {
      assert Pending(s1, s1.pipe[i]);
    }
  }

  lemma SlottedAgrees(s: State, s': State, x: Slot<Id>)
    requires SlotsAgree(s) && Descriptors(s) && x.client.Some? && x.client.value !in s.reg.heap
    requires s'.slots == s.slots + [x] && s'.reg.linked == [x.client.value] + s.reg.linked
    requires x.fd in s.fds && s.fds[x.fd] == ReadEnd(x.client.value)
    requires forall d :: d in s.reg.heap ==> d in s'.reg.heap && s'.reg.heap[d] == s.reg.heap[d]
    requires x.client.value in s'.reg.heap && s'.reg.heap[x.client.value].c2s == x.fd
    ensures SlotsAgree(s')
  {
    forall i | 0 <= i < |s.slots| ensures s.slots[i].fd != x.fd {
      if i >= 2 {
        assert s.slots[i] in s.slots;
        var d := s.slots[i].client.value;
        assert Owns(s, d, s.reg.heap[d].c2s, s.reg.heap[d].s2c);
      }
    }
    forall c | c in s'.reg.linked ensures c in s'.reg.heap && Slot(s'.reg.heap[c].c2s, Some(c)) in s'.slots {
      if c == x.client.value {
        assert s'.slots[|s.slots|] == x;
      } else {
        assert Slot(s.reg.heap[c].c2s, Some(c)) in s.slots;
      }
    }
  }

  /** A client that finds no room in the poll set is removed at once. */
  lemma UnslottedKeeps(s: State)
    requires Inv(s) && s.pipe != [] && s.pipe[0].HskOk?
    ensures var o := RemoveClient(Registered(s), s.pipe[0].conn);
            o.Fine? && Inv(o.value)
  {
    RegisteredKeeps(s);
    var c := s.pipe[0].conn;
    RemoveKeeps(Registered(s), c);
    var s' := RemoveClient(Registered(s), c).value;
    assert s'.reg.linked == s.reg.linked;
    SameLinksAgree(s, s');
  }

  lemma SameLinksAgree(s: State, s': State)
    requires SlotsAgree(s) && s'.slots == s.slots && s'.reg.linked == s.reg.linked
    requires forall c :: c in s.reg.linked ==> c in s'.reg.heap && s'.reg.heap[c].c2s == s.reg.heap[c].c2s
    ensures SlotsAgree(s')
  {
  }

  lemma AdmitKeeps(s: State, e: Event)
    requires Inv(s) && e.ReadResult? && Enabled(s, e) && s.pipe[0].HskOk?
    ensures Next(s, e).Fine? && Inv(Next(s, e).value)
  {
    if !e.inserted {
      RefusedKeeps(s);
    } else if e.slotted {
      SlottedKeeps(s);
    } else {
      UnslottedKeeps(s);
    }
  }

  /** A released client that stays allocated keeps the poll set as it was. */
  lemma LoweredAgrees(s: State, c: Id)
    requires SlotsAgree(s) && c in s.reg.heap && s.reg.heap[c].refcount > 0
    ensures SlotsAgree(Lowered(s, c))
  {
  }

  lemma LoggedInKeeps(s: State, c: Id)
    requires Inv(s) && c in s.reg.heap
    ensures Inv(s.(reg := s.reg.(heap := s.reg.heap[c := s.reg.heap[c].(loggedIn := true)])))
  {
    var s' := s.(reg := s.reg.(heap := s.reg.heap[c := s.reg.heap[c].(loggedIn := true)]));
    forall d: Id ensures Holders(s', d) == Refcount(s', d) {
      assert Holders(s, d) == Refcount(s, d);
    }
    SameEndsKeeps(s, s');
  }

  lemma ResultStep(s: State, e: Event)
    requires e.ReadResult? && Enabled(s, e) && s.pipe[0].ClientResult?
    ensures var p, c, v := Popped(s), s.pipe[0].client, s.pipe[0].verdict;
            Next(s, e) == if Accepted(v) then Reply(p, c, v == AUTH_OK) else Reject(p, c)
  {
  }

  /** The reference a result carried is given back first, whatever the verdict. */
  lemma ResultReleases(s: State)
    requires Inv(s) && s.pipe != [] && s.pipe[0].ClientResult?
    ensures var p, c := Popped(s), s.pipe[0].client;
            && c in p.reg.heap && p.reg.heap[c].refcount > 0
            && ReleaseRef(p, c) == Fine(if Holders(p, c) > 0 then Lowered(p, c) else Buried(p, c))
            && (Holders(p, c) > 0 ==> Inv(Lowered(p, c)))
  {
    PoppedKeeps(s);
    var p, c := Popped(s), s.pipe[0].client;
    ReleaseKeeps(p, c);
    if Holders(p, c) > 0 {
      LoweredAgrees(p, c);
    }
  }

  /** RPC_DONE and AUTH_OK touch a live client exactly when the client is linked or otherwise held. */
  lemma ReplyIffHeld(s: State, e: Event)
    requires Inv(s) && e.ReadResult? && Enabled(s, e)
    requires s.pipe[0].ClientResult? && Accepted(s.pipe[0].verdict)
    ensures Next(s, e).Fine? <==> Guard(s, e)
    ensures Next(s, e).Fine? ==> Inv(Next(s, e).value)
  {
    ResultStep(s, e);
    ResultReleases(s);
    var p, c := Popped(s), s.pipe[0].client;
    if Holders(p, c) > 0 {
      LoggedInKeeps(Lowered(p, c), c);
    }
  }

  /** Rejecting a linked client removes it from the list, the poll set and, unless held, the heap. */
  lemma RejectLinked(s: State, c: Id)
    requires Inv(s) && c in s.reg.linked && c in s.reg.heap
    ensures var o := DropSlot(s, s.reg.heap[c].c2s, c); o.Fine? && Inv(o.value)
  {
    var k := SlotOf(s, c);
    DropSlotKeeps(s, k);
  }

  /** Rejecting a client that has left the list gives back a reference nobody lent. */
  lemma RejectUnlinked(s: State, c: Id)
    requires Inv(s) && c !in s.reg.linked && c in s.reg.heap
    ensures var o := DropSlot(s, s.reg.heap[c].c2s, c); o.Fine? ==> !Ledger(o.value)
  {
    WithoutAbsent(s.reg.linked, c);
    assert Holders(s, c) == Refcount(s, c);
    var o := DropSlot(s, s.reg.heap[c].c2s, c);
    if o.Fine? {
      assert Holders(o.value, c) == Holders(s, c) > Refcount(o.value, c);
    }
  }

  lemma RejectIffLinked(s: State, e: Event)
    requires Inv(s) && e.ReadResult? && Enabled(s, e)
    requires s.pipe[0].ClientResult? && !Accepted(s.pipe[0].verdict)
    ensures Next(s, e).Fine? && Inv(Next(s, e).value) <==> Guard(s, e)
  {
    ResultStep(s, e);
    ResultReleases(s);
    var p, c := Popped(s), s.pipe[0].client;
    if Holders(p, c) > 0 {
      if c in s.reg.linked {
        RejectLinked(Lowered(p, c), c);
      } else {
        RejectUnlinked(Lowered(p, c), c);
      }
    }
  }

  // ---------------------------------------------------------------- the theorem

  /** A step neither faults nor breaks an agreement exactly when its guard holds. */
  lemma StepKeepsIffGuarded(s: State, e: Event)
    requires Inv(s) && Enabled(s, e)
    ensures Next(s, e).Fine? && Inv(Next(s, e).value) <==> Guard(s, e)
  {
    match e
    case HandshakeRequest(_, _) => HandshakeRequestKeeps(s, e);
    case Take => TakeKeeps(s);
    case OpenFailed(_) => OpenFailedKeeps(s, e);
    case Opened(_, _, _, _) => OpenedKeeps(s, e);
    case Finished(_, _, _) => FinishedKeeps(s, e);
    case ClientSays(_, _, _) => SaysKeeps(s, e);
    case ClientGone(i) => DropSlotKeeps(s, i);
    case ReadResult(_, _) =>
      if s.pipe[0].HskOk? {
        AdmitKeeps(s, e);
      } else if Accepted(s.pipe[0].verdict) {
        ReplyIffHeld(s, e);
      } else {
        RejectIffLinked(s, e);
      }
  }
}
