/**
 What is freed and what never is. A reference that was lost stays lost, and a client that has left the list while
 somebody still held it is never freed: the release that would free it runs in a handler that goes on to use it.
 */
module LifetimeLeaks {
  import opened RegistrySpec
  import opened SlotSpec
  import opened Commands
  import opened Lifetime
  import opened LifetimeSteps
  import opened LifetimeRuns

  /**
   When nothing queued, running or unread names a client, it is allocated exactly when it is linked or a
   reference to it was lost: a leak is a lost reference, and a lost reference is a leak.
   */
  lemma QuietClientLeaksIffStranded(states: seq<State>, events: seq<Event>, n: nat, c: Id)
    requires IsRun(states, events) && Guarded(states, events) && n < |states|
    requires TasksHolding(states[n].queue, c) == TasksHolding(states[n].busy, c) == ResultsHolding(states[n].pipe, c) == 0
    ensures var s := states[n];
            && (c in s.reg.heap <==> c in s.reg.linked || s.stranded[c] > 0)
            && Refcount(s, c) == (if c in s.reg.linked then 1 else 0) + s.stranded[c]
  {
    GuardedRunsKeepInv(states, events, n);
    assert Holders(states[n], c) == Refcount(states[n], c);
  }

  // ---------------------------------------------------------------- lost references

  lemma {:induction false} AppliedStrands(s: State, d: Id, effects: seq<Effect>, queued: bool, c: Id)
    requires d in s.reg.heap
    ensures s.stranded[c] <= Applied(s, d, effects, queued).stranded[c]
    decreases |effects|
  {
    if effects != [] {
      var s' := match effects[0]
                case Acquired => s.(reg := Acquire(s.reg, d))
                case Enqueued(kind, _) =>
                  if queued then s.(queue := s.queue + [ClientTask(kind, d)])
                  else s.(stranded := s.stranded + multiset{d});
      AppliedStrands(s', d, effects[1..], queued, c);
    }
  }

  /** No step finds a lost reference again. */
  lemma StrandedGrows(s: State, e: Event, s': State, c: Id)
    requires Step(s, e, s')
    ensures s.stranded[c] <= s'.stranded[c]
  {
    if e.ClientSays? {
      var d := s.slots[e.slot].client.value;
      var (_, effects) := Reaction(Meaning(e.cmd), s.reg.heap[d].loggedIn, s.reg.heap[d].dead);
      AppliedStrands(s, d, effects, e.queued, c);
    }
  }

  lemma {:induction false} StrandedStays(states: seq<State>, events: seq<Event>, i: nat, j: nat, c: Id)
    requires IsRun(states, events) && i <= j < |states|
    ensures states[i].stranded[c] <= states[j].stranded[c]
  {
    if i < j {
      StrandedStays(states, events, i, j - 1, c);
      assert Step(states[j - 1], events[j - 1], states[j]);
      StrandedGrows(states[j - 1], events[j - 1], states[j], c);
    }
  }

  /** From the moment a reference to a client is lost, the client stays allocated and is never freed. */
  lemma StrandedForGood(states: seq<State>, events: seq<Event>, i: nat, j: nat, c: Id)
    requires IsRun(states, events) && Guarded(states, events) && i <= j < |states|
    requires states[i].stranded[c] > 0
    ensures c in states[j].reg.heap && c !in states[j].freed
  {
    StrandedStays(states, events, i, j, c);
    GuardedRunsKeepInv(states, events, j);
    assert Holders(states[j], c) == Refcount(states[j], c);
  }

  // ---------------------------------------------------------------- who is freed

  /** c is neither freed nor linked by what happens between s and s'. */
  ghost predicate Spared(s: State, s': State, c: Id) {
    (c in s.reg.heap ==> c in s'.reg.heap) && (c !in s.reg.linked ==> c !in s'.reg.linked)
  }

  lemma {:induction false} WithoutShrinks(s: seq<Id>, d: Id, c: Id)
    requires c !in s
    ensures c !in Without(s, d)
  {
    if s != [] && s[0] != d {
      WithoutShrinks(s[1..], d, c);
    }
  }

  lemma OthersSpared(s: State, d: Id, c: Id)
    requires c != d
    ensures ReleaseRef(s, d).Fine? ==> Spared(s, ReleaseRef(s, d).value, c)
    ensures RemoveClient(s, d).Fine? ==> Spared(s, RemoveClient(s, d).value, c)
  {
    if c !in s.reg.linked {
      WithoutShrinks(s.reg.linked, d, c);
    }
  }

  lemma {:induction false} AppliedSpares(s: State, d: Id, effects: seq<Effect>, queued: bool, c: Id)
    requires d in s.reg.heap
    ensures Spared(s, Applied(s, d, effects, queued), c)
    decreases |effects|
  {
    if effects != [] {
      var s' := match effects[0]
                case Acquired => s.(reg := Acquire(s.reg, d))
                case Enqueued(kind, _) =>
                  if queued then s.(queue := s.queue + [ClientTask(kind, d)])
                  else s.(stranded := s.stranded + multiset{d});
      AppliedSpares(s', d, effects[1..], queued, c);
    }
  }

  lemma RejectSpares(s: State, d: Id, c: Id)
    requires c != d
    ensures Reject(s, d).Fine? ==> Spared(s, Reject(s, d).value, c)
  {
    OthersSpared(s, d, c);
    if Reject(s, d).Fine? {
      var s1 := ReleaseRef(s, d).value;
      OthersSpared(s1.(slots := RemoveFd(s1.slots, s1.reg.heap[d].c2s)), d, c);
    }
  }

  lemma AdmitSpares(s: State, r: TaskResult, inserted: bool, slotted: bool, c: Id)
    requires r.HskOk? && c != r.conn
    ensures Admit(s, r, inserted, slotted).Fine? ==> Spared(s, Admit(s, r, inserted, slotted).value, c)
  {
    OthersSpared(s.(reg := Insert(s.reg, r.conn, r.pid, r.c2s, r.s2c)), r.conn, c);
  }

  /** Reading a result never frees a client that has left the list: the guard asks for another holder. */
  lemma ResultSparesUnlinked(s: State, e: Event, s': State, c: Id)
    requires Inv(s) && e.ReadResult? && Step(s, e, s') && Guard(s, e)
    requires c in s.reg.heap && c !in s.reg.linked
    ensures Spared(s, s', c)
  {
    var p, r := Popped(s), s.pipe[0];
    if r.HskOk? {
      assert Pending(s, r);
      AdmitSpares(p, r, e.inserted, e.slotted, c);
    } else {
      ResultStep(s, e);
      ResultReleases(s);
      if r.client == c {
        assert Accepted(r.verdict) && Holders(p, c) > 0;
      } else if Accepted(r.verdict) {
        OthersSpared(p, r.client, c);
      } else {
        RejectSpares(p, r.client, c);
      }
    }
  }

  /** A client that has left the list stays out of it and stays allocated, over every guarded step. */
  lemma UnlinkedStays(s: State, e: Event, s': State, c: Id)
    requires Inv(s) && Step(s, e, s') && Guard(s, e)
    requires c in s.reg.heap && c !in s.reg.linked
    ensures c in s'.reg.heap && c !in s'.reg.linked
  {
    match e
    case HandshakeRequest(_, _) =>
    case Take =>
    case OpenFailed(_) =>
    case Opened(_, _, _, _) =>
    case Finished(_, _, _) =>
    case ClientSays(i, cmd, queued) =>
      var d := s.slots[i].client.value;
      assert s.slots[i] in s.slots;
      var (_, effects) := Reaction(Meaning(cmd), s.reg.heap[d].loggedIn, s.reg.heap[d].dead);
      AppliedSpares(s, d, effects, queued, c);
      var s1 := Applied(s, d, effects, queued);
      OthersSpared(s1.(slots := RemoveFd(s1.slots, s.slots[i].fd)), d, c);
    case ClientGone(i) =>
      assert s.slots[i] in s.slots;
      OthersSpared(s.(slots := RemoveFd(s.slots, s.slots[i].fd)), s.slots[i].client.value, c);
    case ReadResult(_, _) =>
      ResultSparesUnlinked(s, e, s', c);
  }

  /**
   The exact condition: a guarded step frees a client if and only if the step takes it off the list and
   nothing outside holds it then. The release that opens a result handler never frees anybody.
   */
  lemma FreedIffLeavesUnheld(s: State, e: Event, s': State, c: Id)
    requires Inv(s) && Step(s, e, s') && Guard(s, e) && c in s.reg.heap
    ensures c !in s'.reg.heap <==> c in s.reg.linked && c !in s'.reg.linked && Outside(s', c) == 0
  {
    StepKeepsIffGuarded(s, e);
    assert Holders(s', c) == Refcount(s', c);
    if c !in s.reg.linked {
      UnlinkedStays(s, e, s', c);
    }
  }

  lemma UnlinkedStaysAt(states: seq<State>, events: seq<Event>, k: nat, c: Id)
    requires IsRun(states, events) && Guarded(states, events) && k < |events|
    requires c in states[k].reg.heap && c !in states[k].reg.linked
    ensures c in states[k + 1].reg.heap && c !in states[k + 1].reg.linked
  {
    GuardedStep(states, events, k);
    UnlinkedStays(states[k], events[k], states[k + 1], c);
  }

  lemma {:induction false} UnlinkedStaysInRun(states: seq<State>, events: seq<Event>, i: nat, j: nat, c: Id)
    requires IsRun(states, events) && Guarded(states, events) && i <= j < |states|
    requires c in states[i].reg.heap && c !in states[i].reg.linked
    ensures c in states[j].reg.heap && c !in states[j].reg.linked
  {
    if i < j {
      UnlinkedStaysInRun(states, events, i, j - 1, c);
      UnlinkedStaysAt(states, events, j - 1, c);
    }
  }

  /** A client that was still allocated after leaving the list is never freed in the rest of a guarded run. */
  lemma DepartedIsNeverFreed(states: seq<State>, events: seq<Event>, i: nat, j: nat, c: Id)
    requires IsRun(states, events) && Guarded(states, events) && i <= j < |states|
    requires c in states[i].reg.heap && c !in states[i].reg.linked
    ensures c in states[j].reg.heap && c !in states[j].reg.linked && c !in states[j].freed
  {
    UnlinkedStaysInRun(states, events, i, j, c);
    GuardedRunsKeepInv(states, events, j);
  }
}
