/** What the step theorem says about whole runs of the server. */
module LifetimeRuns {
  import opened Common
  import opened RegistrySpec
  import opened SlotSpec
  import opened Commands
  import opened Lifetime
  import opened LifetimeSteps

  /** The server before its first event: two self-pipes in the poll set, no clients. */
  ghost function Initial(hsk: int, rpc: int): State {
    State(Registry(map[], []), [Slot(hsk, None), Slot(rpc, None)], [], [], [], multiset{},
          map[hsk := SelfPipe(0), rpc := SelfPipe(1)], multiset{}, 0)
  }

  ghost predicate Step(s: State, e: Event, s': State) {
    Enabled(s, e) && Next(s, e) == Fine(s')
  }

  /** A fault-free run: every event is enabled where it happens and leads to the next state. */
  ghost predicate IsRun(states: seq<State>, events: seq<Event>) {
    && |states| == |events| + 1
    && (exists hsk, rpc :: hsk != rpc && states[0] == Initial(hsk, rpc))
    && forall i :: 0 <= i < |events| ==> Step(states[i], events[i], states[i + 1])
  }

  ghost predicate Guarded(states: seq<State>, events: seq<Event>) {
    forall i :: 0 <= i < |events| && i < |states| && Enabled(states[i], events[i]) ==> Guard(states[i], events[i])
  }

  lemma InitialInv(hsk: int, rpc: int)
    requires hsk != rpc
    ensures Inv(Initial(hsk, rpc))
  {
  }

  /** Every state of a guarded run keeps every agreement. */
  lemma {:induction false} GuardedRunsKeepInv(states: seq<State>, events: seq<Event>, n: nat)
    requires IsRun(states, events) && Guarded(states, events) && n < |states|
    ensures Inv(states[n])
  {
    if n == 0 {
      var hsk, rpc :| hsk != rpc && states[0] == Initial(hsk, rpc);
      InitialInv(hsk, rpc);
    } else {
      GuardedRunsKeepInv(states, events, n - 1);
      assert Step(states[n - 1], events[n - 1], states[n]);
      StepKeepsIffGuarded(states[n - 1], events[n - 1]);
    }
  }

  /** What is known at each event of a guarded run. */
  lemma GuardedStep(states: seq<State>, events: seq<Event>, k: nat)
    requires IsRun(states, events) && Guarded(states, events) && k < |events|
    ensures Inv(states[k]) && Step(states[k], events[k], states[k + 1]) && Guard(states[k], events[k])
  {
    GuardedRunsKeepInv(states, events, k);
  }

  /** From the end of a guarded run, the next event faults or breaks an agreement only if its guard fails. */
  lemma GuardedRunsContinue(states: seq<State>, events: seq<Event>, e: Event)
    requires IsRun(states, events) && Guarded(states, events) && Enabled(states[|events|], e)
    ensures Guard(states[|events|], e) <==> Next(states[|events|], e).Fine? && Inv(Next(states[|events|], e).value)
  {
    GuardedRunsKeepInv(states, events, |events|);
    StepKeepsIffGuarded(states[|events|], e);
  }

  // ---------------------------------------------------------------- the ledger, spelt out

  /** The refcount is the registry's share plus queued tasks, tasks in workers, unread results and lost references. */
  lemma RefcountIsShares(states: seq<State>, events: seq<Event>, n: nat, c: Id)
    requires IsRun(states, events) && Guarded(states, events) && n < |states|
    requires c in states[n].reg.heap
    ensures var s := states[n];
            && s.reg.heap[c].refcount ==
               (if c in s.reg.linked then 1 else 0) + TasksHolding(s.queue, c) + TasksHolding(s.busy, c)
               + ResultsHolding(s.pipe, c) + s.stranded[c]
            && (s.reg.heap[c].dead <==> c !in s.reg.linked)
  {
    GuardedRunsKeepInv(states, events, n);
    assert Holders(states[n], c) == Refcount(states[n], c);
  }

  lemma {:induction false} TaskInSeq(ts: seq<Task>, i: nat, c: Id)
    requires i < |ts| && ts[i].ClientTask? && ts[i].client == c
    ensures TasksHolding(ts, c) > 0
  {
    if i > 0 {
      TaskInSeq(ts[1..], i - 1, c);
    }
  }

  lemma {:induction false} ResultInSeq(rs: seq<TaskResult>, i: nat, c: Id)
    requires i < |rs| && rs[i].ClientResult? && rs[i].client == c
    ensures ResultsHolding(rs, c) > 0
  {
    if i > 0 {
      ResultInSeq(rs[1..], i - 1, c);
    }
  }

  /** The client is named by the list, a queued task, a task in a worker or an unread result. */
  ghost predicate Named(s: State, c: Id) {
    || c in s.reg.linked
    || (exists i :: 0 <= i < |s.queue| && s.queue[i].ClientTask? && s.queue[i].client == c)
    || (exists i :: 0 <= i < |s.busy| && s.busy[i].ClientTask? && s.busy[i].client == c)
    || (exists i :: 0 <= i < |s.pipe| && s.pipe[i].ClientResult? && s.pipe[i].client == c)
  }

  lemma NamedIsHeld(s: State, c: Id)
    requires Named(s, c)
    ensures Holders(s, c) > 0
  {
    if i :| 0 <= i < |s.queue| && s.queue[i].ClientTask? && s.queue[i].client == c {
      TaskInSeq(s.queue, i, c);
    }
    if i :| 0 <= i < |s.busy| && s.busy[i].ClientTask? && s.busy[i].client == c {
      TaskInSeq(s.busy, i, c);
    }
    if i :| 0 <= i < |s.pipe| && s.pipe[i].ClientResult? && s.pipe[i].client == c {
      ResultInSeq(s.pipe, i, c);
    }
  }

  /** At every moment of a guarded run, whoever is named anywhere is allocated, was never freed, and owns two open descriptors. */
  lemma NamedIsAllocated(states: seq<State>, events: seq<Event>, n: nat, c: Id)
    requires IsRun(states, events) && Guarded(states, events) && n < |states| && Named(states[n], c)
    ensures var s := states[n];
            c in s.reg.heap && c !in s.freed && Owns(s, c, s.reg.heap[c].c2s, s.reg.heap[c].s2c)
  {
    GuardedRunsKeepInv(states, events, n);
    NamedIsHeld(states[n], c);
    assert Holders(states[n], c) == Refcount(states[n], c);
  }

  /**
   What a result handler finds after its opening release, whenever a guarded run reads a result: the client is
   still allocated if and only if it is linked, or a task, another result or a lost reference holds it.
   */
  lemma SurvivesReleaseIffHeld(states: seq<State>, events: seq<Event>, n: nat, c: Id)
    requires IsRun(states, events) && Guarded(states, events) && n < |states|
    requires states[n].pipe != [] && states[n].pipe[0].ClientResult? && states[n].pipe[0].client == c
    ensures var s := states[n];
            && ReleaseRef(Popped(s), c).Fine?
            && var s' := ReleaseRef(Popped(s), c).value;
            && (c in s'.reg.heap <==>
                  || c in s.reg.linked || TasksHolding(s.queue, c) > 0 || TasksHolding(s.busy, c) > 0
                  || ResultsHolding(s.pipe[1..], c) > 0 || s.stranded[c] > 0)
            && (c !in s'.reg.heap ==>
                  && c in s.reg.heap && s'.freed == s.freed + multiset{c}
                  && s'.fds == s.fds - {s.reg.heap[c].c2s, s.reg.heap[c].s2c})
  {
    GuardedRunsKeepInv(states, events, n);
    ResultReleases(states[n]);
  }

  // ---------------------------------------------------------------- the poll set, spelt out

  ghost function SlotClients(s: State): seq<Id>
    requires SlotsAgree(s)
  {
    seq(|s.slots| - 2, k requires 0 <= k < |s.slots| - 2 => s.slots[k + 2].client.value)
  }

  lemma SlotClient(s: State, i: nat)
    requires Inv(s) && 2 <= i < |s.slots|
    ensures s.slots[i].client.Some? && s.slots[i].client.value in s.reg.linked
    ensures s.slots[i].client.value in s.reg.heap && s.slots[i].fd == s.reg.heap[s.slots[i].client.value].c2s
    ensures s.slots[i].fd in s.fds && s.fds[s.slots[i].fd] == ReadEnd(s.slots[i].client.value)
  {
    assert s.slots[i] in s.slots;
    var c := s.slots[i].client.value;
    assert Owns(s, c, s.reg.heap[c].c2s, s.reg.heap[c].s2c);
  }

  lemma SlotClientsDistinct(s: State)
    requires Inv(s)
    ensures Distinct(SlotClients(s))
  {
    forall i, j | 0 <= i < j < |SlotClients(s)| ensures SlotClients(s)[i] != SlotClients(s)[j] {
      SlotClient(s, i + 2);
      SlotClient(s, j + 2);
      assert s.slots[i + 2].fd != s.slots[j + 2].fd;
    }
  }

  /** Slots 2 and up hold the linked clients, each exactly once. */
  lemma SlotsHoldLinked(s: State)
    requires Inv(s)
    ensures |s.slots| == |s.reg.linked| + 2
    ensures Distinct(SlotClients(s))
    ensures forall c :: c in SlotClients(s) <==> c in s.reg.linked
  {
    SlotClientsDistinct(s);
    forall c ensures c in SlotClients(s) <==> c in s.reg.linked {
      if c in SlotClients(s) {
        var k :| 0 <= k < |SlotClients(s)| && SlotClients(s)[k] == c;
        SlotClient(s, k + 2);
      }
      if c in s.reg.linked {
        var k := SlotOf(s, c);
        assert SlotClients(s)[k - 2] == c;
      }
    }
    DistinctLength(SlotClients(s));
    DistinctLength(s.reg.linked);
    assert Members(SlotClients(s)) == Members(s.reg.linked);
  }

  /**
   At every moment of a guarded run, slots 0 and 1 are the open self-pipes, and slots 2 and up hold exactly the
   linked clients, each once, polling that client's own open read end.
   */
  lemma SlotsAreTheLinkedClients(states: seq<State>, events: seq<Event>, n: nat)
    requires IsRun(states, events) && Guarded(states, events) && n < |states|
    ensures SlotsAgree(states[n])
    ensures var s := states[n];
            && |s.slots| == |s.reg.linked| + 2 && Distinct(SlotClients(s))
            && (forall c :: c in SlotClients(s) <==> c in s.reg.linked)
            && (forall i :: 2 <= i < |s.slots| ==> s.slots[i].fd in s.fds && s.fds[s.slots[i].fd] == ReadEnd(s.slots[i].client.value))
            && (forall i :: 0 <= i < 2 ==> s.slots[i].fd in s.fds && s.fds[s.slots[i].fd] == SelfPipe(i))
  {
    GuardedRunsKeepInv(states, events, n);
    SlotsHoldLinked(states[n]);
    forall i | 2 <= i < |states[n].slots|
      ensures states[n].slots[i].fd in states[n].fds
      ensures states[n].fds[states[n].slots[i].fd] == ReadEnd(states[n].slots[i].client.value)
    {
      SlotClient(states[n], i);
    }
  }

  ghost function Members(a: seq<Id>): set<Id> {
    set x | x in a
  }

  lemma {:induction false} DistinctLength(a: seq<Id>)
    requires Distinct(a)
    ensures |Members(a)| == |a|
  {
    if a == [] {
      assert Members(a) == {};
    } else {
      DistinctLength(a[1..]);
      assert a[0] !in Members(a[1..]);
      assert Members(a) == {a[0]} + Members(a[1..]);
    }
  }

  // ---------------------------------------------------------------- freeing

  /** Whoever was freed in s still counts as freed in s'. */
  ghost predicate StillFreed(s: State, s': State) {
    forall c: Id :: s.freed[c] <= s'.freed[c]
  }

  lemma ReleaseFrees(s: State, c: Id)
    ensures ReleaseRef(s, c).Fine? ==> StillFreed(s, ReleaseRef(s, c).value)
    ensures RemoveClient(s, c).Fine? ==> StillFreed(s, RemoveClient(s, c).value)
  {
  }

  lemma {:induction false} AppliedFrees(s: State, c: Id, effects: seq<Effect>, queued: bool)
    requires c in s.reg.heap
    ensures Applied(s, c, effects, queued).freed == s.freed
    decreases |effects|
  {
    if effects != [] {
      var s' := match effects[0]
                case Acquired => s.(reg := Acquire(s.reg, c))
                case Enqueued(kind, _) =>
                  if queued then s.(queue := s.queue + [ClientTask(kind, c)])
                  else s.(stranded := s.stranded + multiset{c});
      AppliedFrees(s', c, effects[1..], queued);
    }
  }

  lemma ResultFrees(s: State, e: Event)
    requires e.ReadResult? && Enabled(s, e) && Next(s, e).Fine?
    ensures StillFreed(s, Next(s, e).value)
  {
    var p := Popped(s);
    if s.pipe[0].HskOk? {
      ReleaseFrees(Registered(s), s.pipe[0].conn);
    } else {
      var c := s.pipe[0].client;
      ResultStep(s, e);
      ReleaseFrees(p, c);
      if !Accepted(s.pipe[0].verdict) {
        var s1 := ReleaseRef(p, c).value;
        ReleaseFrees(s1.(slots := RemoveFd(s1.slots, s1.reg.heap[c].c2s)), c);
      }
    }
  }

  /** No step takes a client back from the freed ones. */
  lemma FreedGrows(s: State, e: Event)
    requires Enabled(s, e) && Next(s, e).Fine?
    ensures StillFreed(s, Next(s, e).value)
  {
    match e
    case HandshakeRequest(_, _) =>
    case Take =>
    case OpenFailed(_) =>
    case Opened(_, _, _, _) =>
    case Finished(_, _, _) =>
    case ClientSays(i, cmd, queued) =>
      var c := s.slots[i].client.value;
      var (_, effects) := Reaction(Meaning(cmd), s.reg.heap[c].loggedIn, s.reg.heap[c].dead);
      AppliedFrees(s, c, effects, queued);
      var s' := Applied(s, c, effects, queued);
      ReleaseFrees(s'.(slots := RemoveFd(s'.slots, s.slots[i].fd)), c);
    case ClientGone(i) =>
      ReleaseFrees(s.(slots := RemoveFd(s.slots, s.slots[i].fd)), s.slots[i].client.value);
    case ReadResult(_, _) =>
      ResultFrees(s, e);
  }

  lemma StepFrees(s: State, e: Event, s': State)
    requires Step(s, e, s')
    ensures StillFreed(s, s')
  {
    FreedGrows(s, e);
  }

  lemma FreedIsGone(s: State, c: Id)
    requires Inv(s) && c in s.freed
    ensures s.freed[c] == 1 && c !in s.reg.heap && Holders(s, c) == 0
  {
    assert Holders(s, c) == Refcount(s, c);
  }

  lemma {:induction false} FreedStays(states: seq<State>, events: seq<Event>, i: nat, j: nat, c: Id)
    requires IsRun(states, events) && i <= j < |states| && c in states[i].freed
    ensures c in states[j].freed
  {
    if i < j {
      FreedStays(states, events, i, j - 1, c);
      StepFrees(states[j - 1], events[j - 1], states[j]);
    }
  }

  /** A client freed somewhere in a guarded run was freed once, is never allocated again and never named again. */
  lemma FreedForGood(states: seq<State>, events: seq<Event>, i: nat, j: nat, c: Id)
    requires IsRun(states, events) && Guarded(states, events) && i <= j < |states| && c in states[i].freed
    ensures states[j].freed[c] == 1 && c !in states[j].reg.heap && Holders(states[j], c) == 0
  {
    FreedStays(states, events, i, j, c);
    GuardedRunsKeepInv(states, events, j);
    FreedIsGone(states[j], c);
  }

  // ---------------------------------------------------------------- client records

  /** Whoever is allocated in both states is the same connection, logged in exactly as before. */
  ghost predicate SameRecords(s: State, s': State) {
    forall c :: c in s.reg.heap && c in s'.reg.heap ==>
      && s'.reg.heap[c].pid == s.reg.heap[c].pid && s'.reg.heap[c].c2s == s.reg.heap[c].c2s
      && s'.reg.heap[c].s2c == s.reg.heap[c].s2c && s'.reg.heap[c].loggedIn == s.reg.heap[c].loggedIn
  }

  lemma ReleaseSameRecords(s: State, c: Id)
    ensures ReleaseRef(s, c).Fine? ==> SameRecords(s, ReleaseRef(s, c).value)
    ensures RemoveClient(s, c).Fine? ==> SameRecords(s, RemoveClient(s, c).value)
  {
  }

  lemma {:induction false} AppliedSameRecords(s: State, c: Id, effects: seq<Effect>, queued: bool)
    requires c in s.reg.heap
    ensures SameRecords(s, Applied(s, c, effects, queued))
    decreases |effects|
  {
    if effects != [] {
      var s' := match effects[0]
                case Acquired => s.(reg := Acquire(s.reg, c))
                case Enqueued(kind, _) =>
                  if queued then s.(queue := s.queue + [ClientTask(kind, c)])
                  else s.(stranded := s.stranded + multiset{c});
      AppliedSameRecords(s', c, effects[1..], queued);
    }
  }

  lemma RejectSameRecords(s: State, c: Id)
    ensures Reject(s, c).Fine? ==> SameRecords(s, Reject(s, c).value)
  {
    ReleaseSameRecords(s, c);
    if Reject(s, c).Fine? {
      var s1 := ReleaseRef(s, c).value;
      ReleaseSameRecords(s1.(slots := RemoveFd(s1.slots, s1.reg.heap[c].c2s)), c);
    }
  }

  lemma AdmitSameRecords(s: State, r: TaskResult, inserted: bool, slotted: bool)
    requires r.HskOk? && r.conn !in s.reg.heap
    ensures Admit(s, r, inserted, slotted).Fine? ==> SameRecords(s, Admit(s, r, inserted, slotted).value)
  {
    ReleaseSameRecords(s.(reg := Insert(s.reg, r.conn, r.pid, r.c2s, r.s2c)), r.conn);
  }

  /** Only reading an AUTH_OK result changes who is logged in, and it logs in exactly its own client. */
  lemma ResultRecords(s: State, e: Event, c: Id)
    requires Inv(s) && e.ReadResult? && Enabled(s, e) && Next(s, e).Fine?
    requires c in s.reg.heap && c in Next(s, e).value.reg.heap
    ensures Next(s, e).value.reg.heap[c].loggedIn <==> s.reg.heap[c].loggedIn || s.pipe[0] == ClientResult(AUTH_OK, c)
  {
    var p, r := Popped(s), s.pipe[0];
    if r.HskOk? {
      assert Pending(s, r);
      AdmitSameRecords(p, r, e.inserted, e.slotted);
    } else {
      ResultStep(s, e);
      if Accepted(r.verdict) {
        ReleaseSameRecords(p, r.client);
      } else {
        RejectSameRecords(p, r.client);
      }
    }
  }

  lemma LoginStep(s: State, e: Event, s': State, c: Id)
    requires Inv(s) && Step(s, e, s') && c in s.reg.heap && c in s'.reg.heap
    ensures s'.reg.heap[c].loggedIn <==>
            s.reg.heap[c].loggedIn || (e.ReadResult? && s.pipe[0] == ClientResult(AUTH_OK, c))
  {
    match e
    case HandshakeRequest(_, _) =>
    case Take =>
    case OpenFailed(_) =>
    case Opened(_, _, _, _) =>
    case Finished(_, _, _) =>
    case ClientSays(i, cmd, queued) =>
      var d := s.slots[i].client.value;
      var (_, effects) := Reaction(Meaning(cmd), s.reg.heap[d].loggedIn, s.reg.heap[d].dead);
      AppliedSameRecords(s, d, effects, queued);
      var s1 := Applied(s, d, effects, queued);
      ReleaseSameRecords(s1.(slots := RemoveFd(s1.slots, s.slots[i].fd)), d);
    case ClientGone(i) =>
      ReleaseSameRecords(s.(slots := RemoveFd(s.slots, s.slots[i].fd)), s.slots[i].client.value);
    case ReadResult(_, _) =>
      ResultRecords(s, e, c);
  }

  /**
   At every step of a guarded run, a client that stays allocated is logged in afterwards exactly when it was before,
   or when the step reads an AUTH_OK result of its own.
   */
  lemma LoggedInIffAuthorised(states: seq<State>, events: seq<Event>, n: nat, c: Id)
    requires IsRun(states, events) && Guarded(states, events) && n < |events|
    requires c in states[n].reg.heap && c in states[n + 1].reg.heap
    ensures states[n + 1].reg.heap[c].loggedIn <==>
            || states[n].reg.heap[c].loggedIn
            || (events[n].ReadResult? && states[n].pipe != [] && states[n].pipe[0] == ClientResult(AUTH_OK, c))
  {
    GuardedStep(states, events, n);
    LoginStep(states[n], events[n], states[n + 1], c);
  }
}
