/**
 The condition-variable protocol between the main thread and the workers: task_enqueue,
 task_dequeue's wait loop, the worker loop around it and threadpool_destroy.

 RUNNING is written by a signal handler without the lock, so it may change between any two
 steps of a worker, in particular between the test of the wait condition and the wait.
 */
module WorkerPool {
  import opened Common

  /** A queued task; the ticket tells equal requests apart. */
  datatype Job = Job(kind: TaskType, ticket: nat)

  /** Where a worker is. Testing, Dozing and Leaving are inside the critical section. */
  datatype Worker =
    | Top                  // about to test RUNNING at the head of its loop
    | Locking              // about to take the lock in task_dequeue
    | Testing              // about to test the wait condition
    | Dozing               // found the queue empty and RUNNING set; about to wait
    | Waiting              // asleep, not signalled
    | Woken                // signalled, or woken for no reason; about to retake the lock
    | Leaving              // out of the wait loop, still holding the lock
    | Working(job: Job)    // executing a task, lock released
    | Exited

  datatype State = State(
    workers: seq<Worker>,
    holder: Option<nat>,   // the worker inside the critical section
    queue: seq<Job>,
    running: bool,
    broadcast: bool,       // threadpool_destroy has broadcast
    enqueued: seq<Job>,    // every job queued so far, in order
    taken: seq<Job>,       // every job taken so far, in order
    finished: seq<Job>)    // every job whose result post has been attempted, in order

  datatype Event =
    | Enqueue(job: Job, woken: Option<nat>)   // append, and signal one waiter if there is one
    | Stop                                    // a signal handler clears RUNNING
    | Broadcast                               // threadpool_destroy wakes everybody, under the lock
    | Spurious(w: nat)                        // a wait returns without a signal
    | Run(w: nat)                             // worker w takes its next step

  predicate Inside(p: Worker) {
    p.Testing? || p.Dozing? || p.Leaving?
  }

  ghost predicate Enabled(s: State, e: Event) {
    match e
    case Enqueue(_, woken) =>
      && s.holder == None && !s.broadcast
      && match woken {
           case Some(w) => w < |s.workers| && s.workers[w] == Waiting
           case None => forall w :: 0 <= w < |s.workers| ==> s.workers[w] != Waiting
         }
    case Stop => s.running
    case Broadcast => !s.running && s.holder == None && !s.broadcast
    case Spurious(w) => w < |s.workers| && s.workers[w] == Waiting
    case Run(w) =>
      && w < |s.workers| && s.workers[w] != Waiting && s.workers[w] != Exited
      && (s.workers[w] in {Locking, Woken} ==> s.holder == None)
  }

  function Wake(p: Worker): Worker {
    if p == Waiting then Woken else p
  }

  /** One step of worker w. */
  function Advance(s: State, w: nat): State
    requires w < |s.workers|
  {
    match s.workers[w]
    case Top => s.(workers := s.workers[w := if s.running then Locking else Exited])
    case Locking => s.(workers := s.workers[w := Testing], holder := Some(w))
    case Woken => s.(workers := s.workers[w := Testing], holder := Some(w))
    case Testing => s.(workers := s.workers[w := if s.queue == [] && s.running then Dozing else Leaving])
    case Dozing => s.(workers := s.workers[w := Waiting], holder := None)
    case Leaving =>
      if !s.running || s.queue == [] then s.(workers := s.workers[w := Top], holder := None)
      else s.(workers := s.workers[w := Working(s.queue[0])], holder := None,
              queue := s.queue[1..], taken := s.taken + [s.queue[0]])
    case Working(job) => s.(workers := s.workers[w := Top], finished := s.finished + [job])
    case Waiting => s
    case Exited => s
  }

  ghost function Next(s: State, e: Event): State
    requires Enabled(s, e)
  {
    match e
    case Enqueue(job, woken) =>
      s.(queue := s.queue + [job], enqueued := s.enqueued + [job],
         workers := if woken.Some? then s.workers[woken.value := Woken] else s.workers)
    case Stop => s.(running := false)
    case Broadcast => s.(broadcast := true, workers := seq(|s.workers|, i requires 0 <= i < |s.workers| => Wake(s.workers[i])))
    case Spurious(w) => s.(workers := s.workers[w := Woken])
    case Run(w) => Advance(s, w)
  }

  ghost function Initial(size: nat): State {
    State(seq(size, _ => Top), None, [], true, false, [], [], [])
  }

  // ---------------------------------------------------------------- totals over the workers

  ghost function Total(ws: seq<Worker>, f: Worker -> nat): nat {
    if ws == [] then 0 else f(ws[0]) + Total(ws[1..], f)
  }

  lemma {:induction false} TotalUpdate(ws: seq<Worker>, f: Worker -> nat, w: nat, p: Worker)
    requires w < |ws|
    ensures Total(ws[w := p], f) + f(ws[w]) == Total(ws, f) + f(p)
  {
    if w > 0 {
      TotalUpdate(ws[1..], f, w - 1, p);
      assert ws[w := p][1..] == ws[1..][w - 1 := p];
    } else {
      assert ws[w := p][1..] == ws[1..];
    }
  }

  lemma {:induction false} TotalAtMost(ws: seq<Worker>, f: Worker -> nat, bound: nat)
    requires forall i :: 0 <= i < |ws| ==> f(ws[i]) <= bound
    ensures Total(ws, f) <= bound * |ws|
  {
    if ws != [] {
      assert forall i :: 0 <= i < |ws[1..]| ==> ws[1..][i] == ws[i + 1];
      TotalAtMost(ws[1..], f, bound);
    }
  }

  /** A worker that is going to look at the queue without being signalled again. */
  ghost function Alert(p: Worker): nat {
    if p == Woken || p == Testing || p == Leaving then 1 else 0
  }

  function Holds(p: Worker, job: Job): nat {
    if p == Working(job) then 1 else 0
  }

  /** How many workers are executing this job. */
  function HeldBy(ws: seq<Worker>, job: Job): nat {
    if ws == [] then 0 else Holds(ws[0], job) + HeldBy(ws[1..], job)
  }

  lemma {:induction false} HeldUpdate(ws: seq<Worker>, job: Job, w: nat, p: Worker)
    requires w < |ws|
    ensures HeldBy(ws[w := p], job) + Holds(ws[w], job) == HeldBy(ws, job) + Holds(p, job)
  {
    if w > 0 {
      HeldUpdate(ws[1..], job, w - 1, p);
      assert ws[w := p][1..] == ws[1..][w - 1 := p];
    } else {
      assert ws[w := p][1..] == ws[1..];
    }
  }

  lemma {:induction false} HeldSame(a: seq<Worker>, b: seq<Worker>, job: Job)
    requires |a| == |b| && forall i :: 0 <= i < |a| ==> Holds(a[i], job) == Holds(b[i], job)
    ensures HeldBy(a, job) == HeldBy(b, job)
  {
    if a != [] {
      assert forall i :: 0 <= i < |a[1..]| ==> a[1..][i] == a[i + 1] && b[1..][i] == b[i + 1];
      HeldSame(a[1..], b[1..], job);
    }
  }

  /** How many steps a worker is from its exit once RUNNING is clear. */
  ghost function Distance(p: Worker): nat {
    match p
    case Exited => 0
    case Top => 1
    case Leaving => 2
    case Working(_) => 2
    case Testing => 3
    case _ => 4
  }

  // ---------------------------------------------------------------- what every state keeps

  ghost predicate LockHeld(s: State) {
    && (forall w :: 0 <= w < |s.workers| ==> (Inside(s.workers[w]) <==> s.holder == Some(w)))
    && (s.holder.Some? ==> s.holder.value < |s.workers|)
    && (forall w :: 0 <= w < |s.workers| && s.workers[w] == Dozing ==> s.queue == [])
    && (s.running ==> forall w :: 0 <= w < |s.workers| ==>
                        s.workers[w] != Exited && (s.workers[w] == Leaving ==> s.queue != []))
  }

  ghost predicate SomeoneWaits(s: State) {
    exists w :: 0 <= w < |s.workers| && s.workers[w] == Waiting
  }

  /** While somebody sleeps unsignalled, every queued task has an alert worker of its own. */
  ghost predicate NoLostWakeup(s: State) {
    s.running && SomeoneWaits(s) ==> |s.queue| <= Total(s.workers, Alert)
  }

  /** After the broadcast nobody sleeps, and nobody is about to. */
  ghost predicate AllAwake(s: State) {
    s.broadcast ==> !s.running && forall w :: 0 <= w < |s.workers| ==> s.workers[w] != Waiting && s.workers[w] != Dozing
  }

  /** Every job ever queued is in the queue or was taken, in order; every job taken is with one worker or finished. */
  ghost predicate Conserved(s: State) {
    && s.enqueued == s.taken + s.queue
    && forall job: Job :: multiset(s.taken)[job] == HeldBy(s.workers, job) + multiset(s.finished)[job]
  }

  /** A pool of one finishes the jobs in the order it takes them. */
  ghost predicate InOrder(s: State) {
    |s.workers| == 1 ==>
      s.taken == s.finished + (if s.workers[0].Working? then [s.workers[0].job] else [])
  }

  ghost predicate Inv(s: State) {
    LockHeld(s) && NoLostWakeup(s) && AllAwake(s) && Conserved(s) && InOrder(s)
  }

  lemma {:induction false} InitialHeld(size: nat, job: Job)
    ensures HeldBy(seq(size, _ => Top), job) == 0
  {
    if size > 0 {
      InitialHeld(size - 1, job);
      assert seq(size, _ => Top)[1..] == seq(size - 1, _ => Top);
    }
  }

  lemma InitialInv(size: nat)
    ensures Inv(Initial(size))
  {
    forall job: Job ensures HeldBy(Initial(size).workers, job) == 0 {
      InitialHeld(size, job);
    }
  }

  /** What replacing one worker does to the totals. */
  lemma Replaced(s: State, s': State, w: nat, p: Worker)
    requires w < |s.workers| && s'.workers == s.workers[w := p]
    ensures Total(s'.workers, Alert) + Alert(s.workers[w]) == Total(s.workers, Alert) + Alert(p)
    ensures Total(s'.workers, Distance) + Distance(s.workers[w]) == Total(s.workers, Distance) + Distance(p)
    ensures forall job: Job :: HeldBy(s'.workers, job) + Holds(s.workers[w], job) == HeldBy(s.workers, job) + Holds(p, job)
    ensures SomeoneWaits(s') ==> SomeoneWaits(s) || p == Waiting
  {
    TotalUpdate(s.workers, Alert, w, p);
    TotalUpdate(s.workers, Distance, w, p);
    forall job: Job ensures HeldBy(s'.workers, job) + Holds(s.workers[w], job) == HeldBy(s.workers, job) + Holds(p, job) {
      HeldUpdate(s.workers, job, w, p);
    }
    if SomeoneWaits(s') {
      var v :| 0 <= v < |s'.workers| && s'.workers[v] == Waiting;
      assert v == w || s.workers[v] == Waiting;
    }
  }

  lemma RunKeepsLock(s: State, w: nat)
    requires LockHeld(s) && AllAwake(s) && Enabled(s, Run(w))
    ensures LockHeld(Advance(s, w)) && AllAwake(Advance(s, w))
  {
  }

  lemma RunKeepsWakeups(s: State, w: nat)
    requires LockHeld(s) && NoLostWakeup(s) && Enabled(s, Run(w))
    ensures NoLostWakeup(Advance(s, w))
  {
    var s' := Advance(s, w);
    Replaced(s, s', w, s'.workers[w]);
  }

  /** A worker that neither takes nor finishes a job holds none before and after. */
  lemma IdleKeepsJobs(s: State, s': State, w: nat, p: Worker)
    requires Conserved(s) && w < |s.workers| && s'.workers == s.workers[w := p]
    requires !s.workers[w].Working? && !p.Working?
    requires s'.queue == s.queue && s'.taken == s.taken && s'.finished == s.finished && s'.enqueued == s.enqueued
    ensures Conserved(s')
  {
    forall job: Job ensures HeldBy(s'.workers, job) == HeldBy(s.workers, job) {
      HeldUpdate(s.workers, job, w, p);
    }
  }

  lemma TakingKeepsJobs(s: State, s': State, w: nat)
    requires Conserved(s) && w < |s.workers| && !s.workers[w].Working? && s.queue != []
    requires s'.workers == s.workers[w := Working(s.queue[0])] && s'.finished == s.finished && s'.enqueued == s.enqueued
    requires s'.queue == s.queue[1..] && s'.taken == s.taken + [s.queue[0]]
    ensures Conserved(s')
  {
    assert s'.taken + s'.queue == s.taken + s.queue;
    assert multiset(s'.taken) == multiset(s.taken) + multiset{s.queue[0]};
    forall job: Job ensures multiset(s'.taken)[job] == HeldBy(s'.workers, job) + multiset(s'.finished)[job] {
      HeldUpdate(s.workers, job, w, Working(s.queue[0]));
    }
  }

  lemma FinishingKeepsJobs(s: State, s': State, w: nat)
    requires Conserved(s) && w < |s.workers| && s.workers[w].Working?
    requires s'.workers == s.workers[w := Top] && s'.finished == s.finished + [s.workers[w].job]
    requires s'.queue == s.queue && s'.taken == s.taken && s'.enqueued == s.enqueued
    ensures Conserved(s')
  {
    assert multiset(s'.finished) == multiset(s.finished) + multiset{s.workers[w].job};
    forall job: Job ensures multiset(s'.taken)[job] == HeldBy(s'.workers, job) + multiset(s'.finished)[job] {
      HeldUpdate(s.workers, job, w, Top);
    }
  }

  lemma RunKeepsJobs(s: State, w: nat)
    requires Conserved(s) && Enabled(s, Run(w))
    ensures Conserved(Advance(s, w))
  {
    var s' := Advance(s, w);
    if s.workers[w].Working? {
      FinishingKeepsJobs(s, s', w);
    } else if s'.workers[w].Working? {
      TakingKeepsJobs(s, s', w);
    } else {
      IdleKeepsJobs(s, s', w, s'.workers[w]);
    }
  }

  lemma RunKeepsOrder(s: State, w: nat)
    requires InOrder(s) && Enabled(s, Run(w))
    ensures InOrder(Advance(s, w))
  {
  }

  lemma RunKeeps(s: State, w: nat)
    requires Inv(s) && Enabled(s, Run(w))
    ensures Inv(Advance(s, w))
  {
    RunKeepsLock(s, w);
    RunKeepsWakeups(s, w);
    RunKeepsJobs(s, w);
    RunKeepsOrder(s, w);
  }

  lemma EnqueueKeeps(s: State, e: Event)
    requires Inv(s) && e.Enqueue? && Enabled(s, e)
    ensures Inv(Next(s, e))
  {
    var s' := Next(s, e);
    if e.woken.Some? {
      Replaced(s, s', e.woken.value, Woken);
    }
    assert s'.enqueued == s'.taken + s'.queue;
  }

  lemma BroadcastKeeps(s: State)
    requires Inv(s) && Enabled(s, Broadcast)
    ensures Inv(Next(s, Broadcast))
  {
    var s' := Next(s, Broadcast);
    forall job: Job ensures HeldBy(s'.workers, job) == HeldBy(s.workers, job) {
      HeldSame(s'.workers, s.workers, job);
    }
  }

  lemma SpuriousKeeps(s: State, w: nat)
    requires Inv(s) && Enabled(s, Spurious(w))
    ensures Inv(Next(s, Spurious(w)))
  {
    var s' := Next(s, Spurious(w));
    Replaced(s, s', w, Woken);
    IdleKeepsJobs(s, s', w, Woken);
  }

  /** Every interleaving of the main thread, the signal handler and the workers keeps the invariant. */
  lemma StepKeeps(s: State, e: Event)
    requires Inv(s) && Enabled(s, e)
    ensures Inv(Next(s, e))
  {
    match e
    case Enqueue(_, _) => EnqueueKeeps(s, e);
    case Stop =>
    case Broadcast => BroadcastKeeps(s);
    case Spurious(w) => SpuriousKeeps(s, w);
    case Run(w) => RunKeeps(s, w);
  }

  /** Nothing changes but the workers, the queue, the switches and the lock: no job is taken or finished. */
  ghost predicate NoJobMoves(s: State, s': State) {
    s'.taken == s.taken && s'.finished == s.finished && s'.holder == s.holder
  }

  /** What each event does to each worker: a wake-up reaches the one it is for, and a worker's step is its own. */
  lemma WhoMoves(s: State, e: Event, v: nat)
    requires Enabled(s, e) && v < |s.workers|
    ensures |Next(s, e).workers| == |s.workers|
    ensures var s', p, p' := Next(s, e), s.workers[v], Next(s, e).workers[v];
            match e
            case Enqueue(job, woken) => NoJobMoves(s, s') && s'.queue == s.queue + [job] && p' == if woken == Some(v) then Woken else p
            case Stop => NoJobMoves(s, s') && s'.queue == s.queue && p' == p
            case Broadcast => NoJobMoves(s, s') && s'.queue == s.queue && p' == if p == Waiting then Woken else p
            case Spurious(w) => NoJobMoves(s, s') && s'.queue == s.queue && p' == if v == w then Woken else p
            case Run(w) => v != w ==> p' == p
  {
  }

  // ---------------------------------------------------------------- runs

  ghost predicate Step(s: State, e: Event, s': State) {
    Enabled(s, e) && s' == Next(s, e)
  }

  ghost predicate IsRun(states: seq<State>, events: seq<Event>) {
    && |states| == |events| + 1
    && forall i :: 0 <= i < |events| ==> Step(states[i], events[i], states[i + 1])
  }

  lemma {:induction false} RunsKeepInv(states: seq<State>, events: seq<Event>, n: nat)
    requires IsRun(states, events) && Inv(states[0]) && n < |states|
    ensures Inv(states[n])
  {
    if n > 0 {
      RunsKeepInv(states, events, n - 1);
      assert Step(states[n - 1], events[n - 1], states[n]);
      StepKeeps(states[n - 1], events[n - 1]);
    }
  }

  /** While RUNNING, a non-empty queue never finds the whole pool asleep: some worker is up and about. */
  lemma NeverAllAsleep(states: seq<State>, events: seq<Event>, size: nat, n: nat)
    requires IsRun(states, events) && states[0] == Initial(size) && n < |states|
    requires states[n].running && states[n].queue != [] && |states[n].workers| > 0
    ensures exists w :: 0 <= w < |states[n].workers| && states[n].workers[w] !in {Waiting, Dozing, Exited}
  {
    InitialInv(size);
    RunsKeepInv(states, events, n);
    var s := states[n];
    if s.workers[0] in {Waiting, Dozing, Exited} {
      AlertWorker(s.workers);
    }
  }

  lemma {:induction false} AlertWorker(ws: seq<Worker>)
    ensures Total(ws, Alert) > 0 ==> exists w :: 0 <= w < |ws| && Alert(ws[w]) == 1
  {
    if ws != [] && Alert(ws[0]) == 0 {
      AlertWorker(ws[1..]);
      if w :| 0 <= w < |ws[1..]| && Alert(ws[1..][w]) == 1 {
        assert Alert(ws[w + 1]) == 1;
      }
    }
  }

  /** The jobs that these events queue, in order. */
  function Queued(events: seq<Event>): seq<Job> {
    if events == [] then []
    else
      var last := events[|events| - 1];
      Queued(events[..|events| - 1]) + if last.Enqueue? then [last.job] else []
  }

  /** Each event of a run records exactly itself. */
  lemma RecordStep(states: seq<State>, events: seq<Event>, i: nat)
    requires IsRun(states, events) && i < |events|
    ensures states[i + 1].enqueued == states[i].enqueued + if events[i].Enqueue? then [events[i].job] else []
    ensures states[i + 1].running <==> states[i].running && events[i] != Stop
    ensures states[i + 1].broadcast <==> states[i].broadcast || events[i] == Broadcast
  {
    assert Step(states[i], events[i], states[i + 1]);
  }

  lemma QueuedSnoc(events: seq<Event>, n: nat)
    requires n < |events|
    ensures events[..n + 1] == events[..n] + [events[n]]
    ensures Queued(events[..n + 1]) == Queued(events[..n]) + if events[n].Enqueue? then [events[n].job] else []
  {
    assert events[..n + 1][..n] == events[..n];
  }

  /** What a run has recorded as queued, stopped and broadcast are its own events. */
  lemma {:induction false} RecordsAreEvents(states: seq<State>, events: seq<Event>, size: nat, n: nat)
    requires IsRun(states, events) && states[0] == Initial(size) && n < |states|
    ensures states[n].enqueued == Queued(events[..n])
    ensures states[n].running <==> Stop !in events[..n]
    ensures states[n].broadcast <==> Broadcast in events[..n]
  {
    if n > 0 {
      RecordsAreEvents(states, events, size, n - 1);
      RecordStep(states, events, n - 1);
      QueuedSnoc(events, n - 1);
    }
  }

  /**
   No job is lost, duplicated or reordered before it is taken, and each taken job is with one worker or done: at every
   moment, the jobs the events so far have queued are, in order, those taken and then those still in the queue, and each
   is queued, with a worker or finished as many times as it was queued.
   */
  lemma EveryJobOnce(states: seq<State>, events: seq<Event>, size: nat, n: nat, job: Job)
    requires IsRun(states, events) && states[0] == Initial(size) && n < |states|
    ensures Queued(events[..n]) == states[n].taken + states[n].queue
    ensures multiset(Queued(events[..n]))[job] ==
            multiset(states[n].queue)[job] + HeldBy(states[n].workers, job) + multiset(states[n].finished)[job]
  {
    InitialInv(size);
    RunsKeepInv(states, events, n);
    RecordsAreEvents(states, events, size, n);
    var s := states[n];
    assert s.enqueued == s.taken + s.queue;
    assert multiset(s.taken + s.queue) == multiset(s.taken) + multiset(s.queue);
  }

  /** With one worker, results are attempted in the order the tasks were queued. */
  lemma OneWorkerKeepsOrder(states: seq<State>, events: seq<Event>, n: nat)
    requires IsRun(states, events) && states[0] == Initial(1) && n < |states|
    ensures states[n].finished <= Queued(events[..n])
  {
    InitialInv(1);
    RunsKeepInv(states, events, n);
    RecordsAreEvents(states, events, 1, n);
    PoolSize(states, events, n);
  }

  /**
   Nobody is kept from acting but by the lock: while it is free, a job can be queued, every worker that is up can move, and
   once the server is stopped the broadcast can be made; while it is held, its holder can move.
   */
  lemma EverybodyCanAct(s: State, job: Job)
    requires Inv(s)
    ensures s.holder == None && !s.broadcast ==> exists woken :: Enabled(s, Enqueue(job, woken))
    ensures s.running ==> Enabled(s, Stop)
    ensures s.holder == None && !s.running && !s.broadcast ==> Enabled(s, Broadcast)
    ensures s.holder.Some? ==> Enabled(s, Run(s.holder.value))
    ensures s.holder == None ==> forall w: nat :: w < |s.workers| && s.workers[w] !in {Waiting, Exited} ==> Enabled(s, Run(w))
    ensures forall w: nat :: w < |s.workers| && s.workers[w] == Waiting ==> Enabled(s, Spurious(w))
  {
    if s.holder == None && !s.broadcast {
      if w: nat :| w < |s.workers| && s.workers[w] == Waiting {
        assert Enabled(s, Enqueue(job, Some(w)));
      } else {
        assert Enabled(s, Enqueue(job, None));
      }
    }
  }

  lemma {:induction false} PoolSize(states: seq<State>, events: seq<Event>, n: nat)
    requires IsRun(states, events) && n < |states|
    ensures |states[n].workers| == |states[0].workers|
  {
    if n > 0 {
      PoolSize(states, events, n - 1);
      assert Step(states[n - 1], events[n - 1], states[n]);
    }
  }

  // ---------------------------------------------------------------- work gets done

  /** While RUNNING, a queued job always finds a worker that can move: nobody is stuck on the lock. */
  lemma WorkNotStuck(s: State)
    requires Inv(s) && s.running && s.queue != [] && |s.workers| > 0
    ensures exists w: nat :: Enabled(s, Run(w))
  {
    if s.holder.Some? {
      assert Enabled(s, Run(s.holder.value));
    } else if s.workers[0] != Waiting {
      assert Enabled(s, Run(0));
    } else {
      AlertWorker(s.workers);
      var w :| 0 <= w < |s.workers| && Alert(s.workers[w]) == 1;
      assert Enabled(s, Run(w));
    }
  }

  /** How many steps a worker can take before it sleeps, jobs still queued not counted. */
  ghost function Effort(p: Worker): nat {
    match p
    case Waiting => 0
    case Exited => 0
    case Dozing => 1
    case Leaving => 1
    case Testing => 2
    case Locking => 3
    case Woken => 3
    case Top => 4
    case Working(_) => 5
  }

  /** How many steps the pool can take if nothing more is queued. */
  ghost function WorkLeft(s: State): nat {
    5 * |s.queue| + Total(s.workers, Effort)
  }

  lemma WorkProgress(s: State, w: nat)
    requires Inv(s) && s.running && Enabled(s, Run(w))
    ensures Next(s, Run(w)).running && Inv(Next(s, Run(w))) && WorkLeft(Next(s, Run(w))) < WorkLeft(s)
    ensures Next(s, Run(w)).enqueued == s.enqueued
  {
    StepKeeps(s, Run(w));
    TotalUpdate(s.workers, Effort, w, Advance(s, w).workers[w]);
  }

  lemma {:induction false} NobodyHolds(ws: seq<Worker>, job: Job)
    requires forall w :: 0 <= w < |ws| ==> !ws[w].Working?
    ensures HeldBy(ws, job) == 0
  {
    if ws != [] {
      assert forall w :: 0 <= w < |ws[1..]| ==> ws[1..][w] == ws[w + 1];
      NobodyHolds(ws[1..], job);
    }
  }

  /** No worker can move. */
  ghost predicate AtRest(s: State) {
    forall w: nat :: !Enabled(s, Run(w))
  }

  /** A pool at rest has an empty queue and has finished every job ever queued. */
  lemma RestMeansDone(s: State)
    requires Inv(s) && s.running && |s.workers| > 0 && AtRest(s)
    ensures s.queue == [] && multiset(s.finished) == multiset(s.enqueued)
  {
    if s.queue != [] {
      WorkNotStuck(s);
    }
    assert s.enqueued == s.taken;
    forall w: nat | w < |s.workers| ensures !s.workers[w].Working? {
      assert !Enabled(s, Run(w));
    }
    forall job: Job ensures multiset(s.taken)[job] == multiset(s.finished)[job] {
      NobodyHolds(s.workers, job);
    }
  }

  /** A run of workers' steps only, while RUNNING, uses up the work left. */
  lemma {:induction false} WorkRun(states: seq<State>, events: seq<Event>, n: nat)
    requires IsRun(states, events) && Inv(states[0]) && states[0].running && n < |states|
    requires forall i :: 0 <= i < |events| ==> events[i].Run?
    ensures Inv(states[n]) && states[n].running && states[n].enqueued == states[0].enqueued
    ensures n + WorkLeft(states[n]) <= WorkLeft(states[0])
  {
    if n > 0 {
      WorkRun(states, events, n - 1);
      assert Step(states[n - 1], events[n - 1], states[n]);
      WorkProgress(states[n - 1], events[n - 1].w);
    }
  }

  /** The end of a run from its n-th state on. */
  lemma TailIsRun(states: seq<State>, events: seq<Event>, n: nat)
    requires IsRun(states, events) && n <= |events|
    ensures IsRun(states[n..], events[n..])
  {
    forall i | 0 <= i < |events[n..]| ensures Step(states[n..][i], events[n..][i], states[n..][i + 1]) {
      assert Step(states[n + i], events[n + i], states[n + i + 1]);
    }
  }

  /**
   Work gets done while RUNNING: from any moment of a run on after which nothing more is queued and no wait returns by
   itself, the workers have only so many steps left, and when they have no more, the queue is empty and every job the
   events have queued is finished.
   */
  lemma WorkCompletes(states: seq<State>, events: seq<Event>, size: nat, n: nat)
    requires IsRun(states, events) && states[0] == Initial(size) && size > 0
    requires n <= |events| && Stop !in events[..n] && forall i :: n <= i < |events| ==> events[i].Run?
    ensures |events| - n + WorkLeft(states[|events|]) <= WorkLeft(states[n])
    ensures AtRest(states[|events|]) ==>
              states[|events|].queue == [] && multiset(states[|events|].finished) == multiset(Queued(events[..n]))
  {
    InitialInv(size);
    RunsKeepInv(states, events, n);
    RecordsAreEvents(states, events, size, n);
    TailIsRun(states, events, n);
    WorkRun(states[n..], events[n..], |events| - n);
    PoolSize(states, events, |events|);
    if AtRest(states[|events|]) {
      RestMeansDone(states[|events|]);
    }
  }

  // ---------------------------------------------------------------- shutdown

  /** After the broadcast every possible step is a worker getting closer to its exit. */
  lemma ShutdownProgress(s: State, e: Event)
    requires Inv(s) && s.broadcast && Enabled(s, e)
    ensures e.Run? && Next(s, e).broadcast && Inv(Next(s, e))
    ensures Total(Next(s, e).workers, Distance) < Total(s.workers, Distance)
  {
    StepKeeps(s, e);
    Replaced(s, Advance(s, e.w), e.w, Advance(s, e.w).workers[e.w]);
  }

  /** After the broadcast, unless every worker has exited, one of them can move: nobody is stuck on the lock or asleep. */
  lemma ShutdownNotStuck(s: State)
    requires Inv(s) && s.broadcast
    ensures || (exists w: nat :: Enabled(s, Run(w)))
            || (forall w :: 0 <= w < |s.workers| ==> s.workers[w] == Exited)
  {
    if s.holder.Some? {
      assert Enabled(s, Run(s.holder.value));
    } else if w :| 0 <= w < |s.workers| && s.workers[w] != Exited {
      assert Enabled(s, Run(w));
    }
  }

  /**
   The joins of threadpool_destroy complete: after the broadcast a run has at most four steps for
   each worker, and a run that cannot be continued has ended with every worker gone.
   */
  lemma {:induction false} ShutdownCompletes(states: seq<State>, events: seq<Event>)
    requires IsRun(states, events) && Inv(states[0]) && states[0].broadcast
    ensures |events| + Total(states[|events|].workers, Distance) <= Total(states[0].workers, Distance) <= 4 * |states[0].workers|
    ensures (forall e :: !Enabled(states[|events|], e)) ==>
              forall w :: 0 <= w < |states[|events|].workers| ==> states[|events|].workers[w] == Exited
  {
    TotalAtMost(states[0].workers, Distance, 4);
    if events == [] {
      ShutdownNotStuck(states[0]);
    } else {
      assert Step(states[0], events[0], states[1]);
      ShutdownProgress(states[0], events[0]);
      PoolSize(states, events, 1);
      assert IsRun(states[1..], events[1..]) by {
        forall i | 0 <= i < |events[1..]| ensures Step(states[1..][i], events[1..][i], states[1..][i + 1]) {
          assert Step(states[i + 1], events[i + 1], states[i + 2]);
        }
      }
      ShutdownCompletes(states[1..], events[1..]);
      assert states[1..][|events[1..]|] == states[|events|];
    }
  }

  /**
   Shutdown reaches every worker: from the broadcast on a server run has at most four more steps for each worker, and
   one that cannot be continued has ended with every worker gone.
   */
  lemma ShutdownReachesAll(states: seq<State>, events: seq<Event>, size: nat, n: nat)
    requires IsRun(states, events) && states[0] == Initial(size) && n <= |events| && Broadcast in events[..n]
    ensures |events| - n <= 4 * size
    ensures (forall e :: !Enabled(states[|events|], e)) ==>
              |states[|events|].workers| == size && forall w :: 0 <= w < size ==> states[|events|].workers[w] == Exited
  {
    InitialInv(size);
    RunsKeepInv(states, events, n);
    RecordsAreEvents(states, events, size, n);
    TailIsRun(states, events, n);
    PoolSize(states, events, n);
    PoolSize(states, events, |events|);
    ShutdownCompletes(states[n..], events[n..]);
  }

  /** From the broadcast on, no worker of a server run is asleep or about to sleep, whenever RUNNING was cleared. */
  lemma NobodySleepsAfterBroadcast(states: seq<State>, events: seq<Event>, size: nat, n: nat, w: nat)
    requires IsRun(states, events) && states[0] == Initial(size) && n < |states|
    requires states[n].broadcast && w < |states[n].workers|
    ensures states[n].workers[w] != Waiting && states[n].workers[w] != Dozing
  {
    InitialInv(size);
    RunsKeepInv(states, events, n);
  }
}
