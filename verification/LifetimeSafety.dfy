/**
 Runs in which nobody leaves while anything of his is outstanding need no guard: the positive side of what is
 shown about clients that leave too early.
 */
module LifetimeSafety {
  import opened SlotSpec
  import opened Commands
  import opened Lifetime
  import opened LifetimeProofs
  import opened LifetimeSteps
  import opened LifetimeRuns

  /** Every allocated client is linked. */
  ghost predicate AllLinked(s: State) {
    forall c :: c in s.reg.heap ==> c in s.reg.linked
  }

  /** Whoever leaves the list over this step leaves nothing behind: no task, no result, no lost reference. */
  ghost predicate LeavesNothing(s: State, s': State) {
    forall c: Id :: c in s.reg.linked && c !in s'.reg.linked ==> Outside(s', c) == 0
  }

  ghost predicate Orderly(states: seq<State>) {
    forall i :: 0 < i < |states| ==> LeavesNothing(states[i - 1], states[i])
  }

  /** While every allocated client is linked, no step asks for more than it has. */
  lemma LinkedMeansGuarded(s: State, e: Event)
    requires Inv(s) && AllLinked(s) && Enabled(s, e)
    ensures Guard(s, e)
  {
    if e.ReadResult? && s.pipe[0].ClientResult? {
      var c := s.pipe[0].client;
      ResultInSeq(s.pipe, 0, c);
      assert Holders(s, c) == Refcount(s, c);
    }
  }

  lemma ReleaseAllocatesNobody(s: State, c: Id)
    ensures ReleaseRef(s, c).Fine? ==> ReleaseRef(s, c).value.reg.heap.Keys <= s.reg.heap.Keys
    ensures RemoveClient(s, c).Fine? ==> RemoveClient(s, c).value.reg.heap.Keys <= s.reg.heap.Keys
  {
  }

  lemma RejectAllocatesNobody(s: State, c: Id)
    ensures Reject(s, c).Fine? ==> Reject(s, c).value.reg.heap.Keys <= s.reg.heap.Keys
  {
    ReleaseAllocatesNobody(s, c);
    if Reject(s, c).Fine? {
      var s1 := ReleaseRef(s, c).value;
      ReleaseAllocatesNobody(s1.(slots := RemoveFd(s1.slots, s1.reg.heap[c].c2s)), c);
    }
  }

  /** Only a finished handshake allocates a client. */
  lemma OnlyHandshakesAllocate(s: State, e: Event, s': State)
    requires Step(s, e, s') && !(e.ReadResult? && s.pipe[0].HskOk?)
    ensures s'.reg.heap.Keys <= s.reg.heap.Keys
  {
    match e
    case HandshakeRequest(_, _) =>
    case Take =>
    case OpenFailed(_) =>
    case Opened(_, _, _, _) =>
    case Finished(_, _, _) =>
    case ClientSays(i, cmd, queued) =>
      var c := s.slots[i].client.value;
      var (_, effects) := Reaction(Meaning(cmd), s.reg.heap[c].loggedIn, s.reg.heap[c].dead);
      ReleaseAllocatesNobody(Applied(s, c, effects, queued).(slots := RemoveFd(Applied(s, c, effects, queued).slots, s.slots[i].fd)), c);
    case ClientGone(i) =>
      ReleaseAllocatesNobody(s.(slots := RemoveFd(s.slots, s.slots[i].fd)), s.slots[i].client.value);
    case ReadResult(_, _) =>
      ResultStep(s, e);
      ReleaseAllocatesNobody(Popped(s), s.pipe[0].client);
      RejectAllocatesNobody(Popped(s), s.pipe[0].client);
  }

  /** And the client it allocates is linked, or freed again by the same step. */
  lemma AdmittedIsLinked(s: State, e: Event, s': State)
    requires Inv(s) && Step(s, e, s') && e.ReadResult? && s.pipe[0].HskOk?
    ensures forall c :: c in s'.reg.heap ==> c in s.reg.heap || c in s'.reg.linked
  {
    if e.inserted && !e.slotted {
      var conn := s.pipe[0].conn;
      RegisteredKeeps(s);
      RemoveKeeps(Registered(s), conn);
      assert Holders(Registered(s), conn) == Refcount(Registered(s), conn);
    }
  }

  /** A client allocated by a step is linked by it. */
  lemma NewIsLinked(s: State, e: Event, s': State)
    requires Inv(s) && Step(s, e, s')
    ensures forall c :: c in s'.reg.heap ==> c in s.reg.heap || c in s'.reg.linked
  {
    if e.ReadResult? && s.pipe[0].HskOk? {
      AdmittedIsLinked(s, e, s');
    } else {
      OnlyHandshakesAllocate(s, e, s');
    }
  }

  lemma OrderlyStep(s: State, e: Event, s': State)
    requires Inv(s) && AllLinked(s) && Step(s, e, s') && LeavesNothing(s, s')
    ensures Inv(s') && AllLinked(s')
  {
    LinkedMeansGuarded(s, e);
    StepKeepsIffGuarded(s, e);
    NewIsLinked(s, e, s');
    forall c | c in s'.reg.heap ensures c in s'.reg.linked {
      assert Holders(s', c) == Refcount(s', c);
    }
  }

  lemma {:induction false} OrderlyRunsKeep(states: seq<State>, events: seq<Event>, n: nat)
    requires IsRun(states, events) && Orderly(states) && n < |states|
    ensures Inv(states[n]) && AllLinked(states[n])
  {
    if n == 0 {
      var hsk, rpc :| hsk != rpc && states[0] == Initial(hsk, rpc);
      InitialInv(hsk, rpc);
    } else {
      OrderlyRunsKeep(states, events, n - 1);
      assert Step(states[n - 1], events[n - 1], states[n]);
      OrderlyStep(states[n - 1], events[n - 1], states[n]);
    }
  }

  /**
   If every client that left in a run left nothing outstanding behind, then whatever happens next is safe: it asks
   for nothing its guard would refuse, touches no freed memory and keeps every agreement.
   */
  lemma OrderlyRunsAreSafe(states: seq<State>, events: seq<Event>, e: Event)
    requires IsRun(states, events) && Orderly(states) && Enabled(states[|events|], e)
    ensures Guard(states[|events|], e)
    ensures Next(states[|events|], e).Fine? && Inv(Next(states[|events|], e).value)
  {
    OrderlyRunsKeep(states, events, |events|);
    LinkedMeansGuarded(states[|events|], e);
    StepKeepsIffGuarded(states[|events|], e);
  }

  /** In such a run every allocated client is linked, so nobody is leaked either. */
  lemma OrderlyRunsLeakNobody(states: seq<State>, events: seq<Event>, n: nat)
    requires IsRun(states, events) && Orderly(states) && n < |states|
    ensures forall c :: c in states[n].reg.heap <==> c in states[n].reg.linked
  {
    OrderlyRunsKeep(states, events, n);
    forall c | c in states[n].reg.linked ensures c in states[n].reg.heap {
      assert Holders(states[n], c) == Refcount(states[n], c);
    }
  }
}
