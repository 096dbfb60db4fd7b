/** Runs of the server that show which of its steps need the guard, and what it can lose for good. */
module LifetimeWitnesses {
  import opened Common
  import opened RegistrySpec
  import opened SlotSpec
  import opened Commands
  import opened Lifetime
  import opened LifetimeRuns

  // ---------------------------------------------------------------- the guard is needed

  /** Client 0 has connected over descriptors 5 and 6, and its record is in this state. */
  ghost function Connected(refcount: nat, dead: bool, linked: seq<Id>): Registry<Id> {
    Registry(map[0 := Cell(100, 5, 6, refcount, false, dead)], linked)
  }

  /** A state of a server whose only client is client 0, with both its descriptors open. */
  ghost function OneClient(reg: Registry<Id>, slots: seq<Slot<Id>>, queue: seq<Task>, busy: seq<Task>, pipe: seq<TaskResult>): State {
    State(reg, [Slot(3, None), Slot(4, None)] + slots, queue, busy, pipe, multiset{},
          map[3 := SelfPipe(0), 4 := SelfPipe(1), 5 := ReadEnd(0), 6 := WriteEnd(0)], multiset{}, 1)
  }

  /** What a client asks for, and the verdict its request meets. */
  datatype Errand = Errand(kind: TaskType, args: string, verdict: Verdict)

  /** Every request that gets an answer: a login meets an AUTH verdict, anything else RPC_DONE; a barrier gets none. */
  ghost predicate Answered(q: Errand) {
    q.kind != HANDSHAKE && q.kind != BARRIER && (q.verdict != RPC_DONE <==> q.kind == AUTHORISE)
  }

  ghost function Line(q: Errand): string {
    Keyword(q.kind) + q.args
  }

  lemma LineReaction(q: Errand)
    requires q.kind != HANDSHAKE
    ensures Reaction(Meaning(Line(q)), false, false) == (false, [Acquired, Enqueued(q.kind, q.args)])
  {
    var n := |Keyword(q.kind)|;
    assert Line(q)[..n] == Keyword(q.kind) && Line(q)[n..] == q.args;
    assert Selects(Line(q), q.kind);
    MeaningOf(Line(q), q.kind);
    if q.kind == AUTHORISE {
      assert n == 6;
    }
  }

  const SLOT := Slot(5, Some(0 as Id))

  /** The states of the run: connect, send one request, hang up while a worker has it, finish the request. */
  ghost function Moment(q: Errand, n: int): State {
    var task := ClientTask(q.kind, 0);
    if n == 0 then Initial(3, 4)
    else if n == 1 then Initial(3, 4).(queue := [Handshake(100)])
    else if n == 2 then Initial(3, 4).(busy := [Handshake(100)])
    else if n == 3 then OneClient(Registry(map[], []), [], [], [], [HskOk(100, 5, 6, 0)])
    else if n == 4 then OneClient(Connected(1, false, [0]), [SLOT], [], [], [])
    else if n == 5 then OneClient(Connected(2, false, [0]), [SLOT], [task], [], [])
    else if n == 6 then OneClient(Connected(2, false, [0]), [SLOT], [], [task], [])
    else if n == 7 then OneClient(Connected(1, true, []), [], [], [task], [])
    else OneClient(Connected(1, true, []), [], [], [], [ClientResult(q.verdict, 0)])
  }

  ghost function Move(q: Errand, line: string, n: int): Event {
    if n == 0 then HandshakeRequest(100, true)
    else if n == 1 then Take
    else if n == 2 then Opened(0, 5, 6, true)
    else if n == 3 then ReadResult(true, true)
    else if n == 4 then ClientSays(2, line, true)
    else if n == 5 then Take
    else if n == 6 then ClientGone(2)
    else Finished(0, q.verdict, true)
  }

  lemma Moves01(q: Errand, line: string)
    ensures Step(Moment(q, 0), Move(q, line, 0), Moment(q, 1))
    ensures Step(Moment(q, 1), Move(q, line, 1), Moment(q, 2))
  {
    var s := Moment(q, 1);
    assert s.queue[1..] == [] && s.busy + [Handshake(100)] == [Handshake(100)];
  }

  lemma Move2(q: Errand, line: string)
    ensures Step(Moment(q, 2), Move(q, line, 2), Moment(q, 3))
  {
    var s, s' := Moment(q, 2), Moment(q, 3);
    assert WithoutTask(s.busy, 0) == [] && s.pipe + s'.pipe == s'.pipe;
    assert s.fds[5 := ReadEnd(0)][6 := WriteEnd(0)] == s'.fds;
    assert s.slots == s'.slots;
  }

  lemma Move3(q: Errand, line: string)
    ensures Step(Moment(q, 3), Move(q, line, 3), Moment(q, 4))
  {
    var s, s' := Moment(q, 3), Moment(q, 4);
    assert s.pipe[1..] == [] && s.slots + [SLOT] == s'.slots;
    assert Insert(s.reg, 0, 100, 5, 6) == s'.reg;
  }

  lemma Move4(q: Errand, line: string)
    requires Reaction(Meaning(line), false, false) == (false, [Acquired, Enqueued(q.kind, q.args)])
    ensures Step(Moment(q, 4), Move(q, line, 4), Moment(q, 5))
  {
    var s, s' := Moment(q, 4), Moment(q, 5);
    var effects := [Acquired, Enqueued(q.kind, q.args)];
    var s1 := s.(reg := Acquire(s.reg, 0));
    assert s1.reg == s'.reg && s.queue + s'.queue == s'.queue;
    assert effects[1..][1..] == [];
    assert Applied(s', 0, [], true) == s';
    assert Applied(s1, 0, effects[1..], true) == s';
    assert Applied(s, 0, effects, true) == s';
  }

  lemma Move5(q: Errand, line: string)
    ensures Step(Moment(q, 5), Move(q, line, 5), Moment(q, 6))
  {
    var s, s' := Moment(q, 5), Moment(q, 6);
    assert s.queue[1..] == [] && s.busy + s'.busy == s'.busy;
  }

  lemma Move6(q: Errand, line: string)
    ensures Step(Moment(q, 6), Move(q, line, 6), Moment(q, 7))
  {
    var s, s' := Moment(q, 6), Moment(q, 7);
    assert RemoveFd(s.slots, 5) == s'.slots by {
      assert s.slots[2].fd == 5;
      RemoveFdKeepsOthers(s.slots, 2);
    }
    WithoutRemovesOne([0 as Id], 0);
    var reg := Unlink(MarkDead(s.reg, 0), 0);
    assert Release(reg, 0) == s'.reg;
  }

  lemma Move7(q: Errand, line: string)
    requires Answered(q)
    ensures Step(Moment(q, 7), Move(q, line, 7), Moment(q, 8))
  {
    var s, s' := Moment(q, 7), Moment(q, 8);
    assert WithoutTask(s.busy, 0) == [] && s.pipe + s'.pipe == s'.pipe;
  }

  lemma LastFaults(q: Errand)
    requires Answered(q)
    ensures var last, e := Moment(q, 8), ReadResult(true, true);
            Enabled(last, e) && !Guard(last, e) && Next(last, e) == Fault
  {
    assert Moment(q, 8).pipe[1..] == [];
  }

  lemma MovesAreSteps(q: Errand, line: string, i: nat)
    requires Answered(q) && i < 8
    requires Reaction(Meaning(line), false, false) == (false, [Acquired, Enqueued(q.kind, q.args)])
    ensures Step(Moment(q, i), Move(q, line, i), Moment(q, i + 1))
  {
    match i
    case 0 => Moves01(q, line);
    case 1 => Moves01(q, line);
    case 2 => Move2(q, line);
    case 3 => Move3(q, line);
    case 4 => Move4(q, line);
    case 5 => Move5(q, line);
    case 6 => Move6(q, line);
    case _ => Move7(q, line);
  }

  /**
   The guard cannot be dropped, whatever the request: a client that hangs up while its only request is
   being worked on is freed by the release that opens the result handler, and the rest of the handler uses it.
   */
  lemma DepartedClientFaults(q: Errand) returns (states: seq<State>, events: seq<Event>)
    requires Answered(q)
    ensures IsRun(states, events) && |events| == 8
    ensures var last, e := states[8], ReadResult(true, true);
            Enabled(last, e) && !Guard(last, e) && Next(last, e) == Fault
  {
    var line := Line(q);
    LineReaction(q);
    states, events := seq(9, n => Moment(q, n)), seq(8, n => Move(q, line, n));
    forall i | 0 <= i < |events| ensures Step(states[i], events[i], states[i + 1]) {
      MovesAreSteps(q, line, i);
    }
    assert states[0] == Initial(3, 4);
    LastFaults(q);
  }

  // ---------------------------------------------------------------- a leak

  /** The request is worked on, its reference is lost, and the client hangs up. */
  ghost function LeakMoment(q: Errand, n: int): State {
    if n <= 6 then Moment(q, n)
    else if n == 7 then OneClient(Connected(2, false, [0]), [SLOT], [], [], []).(stranded := multiset{0})
    else OneClient(Connected(1, true, []), [], [], [], []).(stranded := multiset{0})
  }

  ghost function LeakMove(q: Errand, line: string, posted: bool, n: int): Event {
    if n <= 5 then Move(q, line, n) else if n == 6 then Finished(0, q.verdict, posted) else ClientGone(2)
  }

  /** A request whose result never reaches the main loop: a barrier, or any other that finds the pipe full. */
  ghost predicate Loses(q: Errand, posted: bool) {
    q.kind != HANDSHAKE && (q.verdict != RPC_DONE <==> q.kind == AUTHORISE) && (q.kind == BARRIER || !posted)
  }

  lemma LosingMove(q: Errand, line: string, posted: bool)
    requires Loses(q, posted)
    ensures Step(LeakMoment(q, 6), LeakMove(q, line, posted, 6), LeakMoment(q, 7))
  {
    var s := Moment(q, 6);
    assert WithoutTask(s.busy, 0) == [] && s.stranded + multiset{0 as Id} == multiset{0 as Id};
  }

  lemma LeavingMove(q: Errand, line: string, posted: bool)
    ensures Step(LeakMoment(q, 7), LeakMove(q, line, posted, 7), LeakMoment(q, 8))
  {
    var s, s' := LeakMoment(q, 7), LeakMoment(q, 8);
    assert RemoveFd(s.slots, 5) == s'.slots by {
      assert s.slots[2].fd == 5;
      RemoveFdKeepsOthers(s.slots, 2);
    }
    WithoutRemovesOne([0 as Id], 0);
    assert Release(Unlink(MarkDead(s.reg, 0), 0), 0) == s'.reg;
  }

  lemma LeakMovesAreSteps(q: Errand, line: string, posted: bool, i: nat)
    requires Loses(q, posted) && i < 8
    requires Reaction(Meaning(line), false, false) == (false, [Acquired, Enqueued(q.kind, q.args)])
    ensures Step(LeakMoment(q, i), LeakMove(q, line, posted, i), LeakMoment(q, i + 1))
  {
    match i
    case 0 => Moves01(q, line);
    case 1 => Moves01(q, line);
    case 2 => Move2(q, line);
    case 3 => Move3(q, line);
    case 4 => Move4(q, line);
    case 5 => Move5(q, line);
    case 6 => LosingMove(q, line, posted);
    case _ => LeavingMove(q, line, posted);
  }

  /** None of the events of these runs reads a client's result, so no guard is asked for. */
  lemma LeakMovesAreGuarded(q: Errand, line: string, posted: bool, i: nat)
    requires i < 8 && Enabled(LeakMoment(q, i), LeakMove(q, line, posted, i))
    ensures Guard(LeakMoment(q, i), LeakMove(q, line, posted, i))
  {
  }

  /**
   A guarded run to a leak, for every kind of request: the client sends it, its reference is lost with its
   result, and the client hangs up. The server is at rest, and the client is dead, unlinked and still allocated.
   */
  lemma LostReferenceLeaks(q: Errand, posted: bool) returns (states: seq<State>, events: seq<Event>)
    requires Loses(q, posted)
    ensures IsRun(states, events) && Guarded(states, events) && |events| == 8
    ensures events[4] == ClientSays(2, Keyword(q.kind) + q.args, true)
    ensures var s := states[8];
            && s.queue == [] && s.busy == [] && s.pipe == [] && s.stranded[0] == 1
            && 0 in s.reg.heap && 0 !in s.reg.linked && s.reg.heap[0].dead
            && 5 in s.fds && 6 in s.fds
  {
    var line := Line(q);
    LineReaction(q);
    states, events := seq(9, n => LeakMoment(q, n)), seq(8, n => LeakMove(q, line, posted, n));
    forall i | 0 <= i < |events| ensures Step(states[i], events[i], states[i + 1]) {
      LeakMovesAreSteps(q, line, posted, i);
    }
    forall i | 0 <= i < |events| && Enabled(states[i], events[i]) ensures Guard(states[i], events[i]) {
      LeakMovesAreGuarded(q, line, posted, i);
    }
    assert states[0] == Initial(3, 4);
  }

  /** The states of a run whose request cannot be queued. */
  ghost function DroppedMoment(q: Errand, n: int): State {
    if n <= 4 then Moment(q, n) else LeakMoment(q, n + 2)
  }

  ghost function DroppedMove(q: Errand, line: string, n: int): Event {
    if n <= 3 then Move(q, line, n) else if n == 4 then ClientSays(2, line, false) else ClientGone(2)
  }

  lemma DroppingMove(q: Errand, line: string)
    requires Reaction(Meaning(line), false, false) == (false, [Acquired, Enqueued(q.kind, q.args)])
    ensures Step(DroppedMoment(q, 4), DroppedMove(q, line, 4), DroppedMoment(q, 5))
  {
    var s, s' := Moment(q, 4), LeakMoment(q, 7);
    var effects := [Acquired, Enqueued(q.kind, q.args)];
    var s1 := s.(reg := Acquire(s.reg, 0));
    assert s1.reg == s'.reg && s.stranded + multiset{0 as Id} == s'.stranded;
    assert effects[1..][1..] == [];
    assert Applied(s', 0, [], false) == s';
    assert Applied(s1, 0, effects[1..], false) == s';
    assert Applied(s, 0, effects, false) == s';
  }

  lemma DroppedMovesAreSteps(q: Errand, line: string, i: nat)
    requires i < 6 && Reaction(Meaning(line), false, false) == (false, [Acquired, Enqueued(q.kind, q.args)])
    ensures Step(DroppedMoment(q, i), DroppedMove(q, line, i), DroppedMoment(q, i + 1))
    ensures Guard(DroppedMoment(q, i), DroppedMove(q, line, i))
  {
    match i
    case 0 => Moves01(q, line);
    case 1 => Moves01(q, line);
    case 2 => Move2(q, line);
    case 3 => Move3(q, line);
    case 4 => DroppingMove(q, line);
    case _ => LeavingMove(q, line, false);
  }

  /** The same leak, for every kind of request, when the task cannot be queued: the failed enqueue is ignored. */
  lemma FailedEnqueueLeaks(q: Errand) returns (states: seq<State>, events: seq<Event>)
    requires q.kind != HANDSHAKE
    ensures IsRun(states, events) && Guarded(states, events) && |events| == 6
    ensures events[4] == ClientSays(2, Keyword(q.kind) + q.args, false)
    ensures states[6] == LeakMoment(q, 8)
  {
    var line := Line(q);
    LineReaction(q);
    states, events := seq(7, n => DroppedMoment(q, n)), seq(6, n => DroppedMove(q, line, n));
    forall i | 0 <= i < |events| ensures Step(states[i], events[i], states[i + 1]) && Guard(states[i], events[i]) {
      DroppedMovesAreSteps(q, line, i);
    }
    assert states[0] == Initial(3, 4);
  }
}
