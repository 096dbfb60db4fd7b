/**
 The life of a client across the whole server: the registry, the poll set, the task queue,
 the workers and the result pipe, as one transition system. References are taken by the main
 loop when it queues a task and given back when it reads the task's result; in between the
 task carries the reference through the queue, a worker and the pipe.

 Only the main loop touches the registry and the poll set, so each of its handlers is one
 step; the workers' takes and posts interleave with them in every possible order.
 */
module Lifetime {
  import opened Common
  import opened RegistrySpec
  import opened SlotSpec
  import opened Commands

  /** Clients are numbered by the connection they came from, so a reused address is a new client. */
  type Id = nat

  datatype Task = Handshake(pid: int) | ClientTask(kind: TaskType, client: Id)

  datatype Verdict = AUTH_OK | AUTH_NO | AUTH_UN | RPC_DONE

  /** The verdicts after which the main loop goes on using the client. */
  predicate Accepted(v: Verdict) {
    v == AUTH_OK || v == RPC_DONE
  }

  /** A record in the result pipe. HSK_OK carries two open descriptors, the others a client. */
  datatype TaskResult = HskOk(pid: int, c2s: int, s2c: int, conn: Id) | ClientResult(verdict: Verdict, client: Id)

  /** What an open descriptor was opened for. */
  datatype Endpoint = SelfPipe(index: nat) | ReadEnd(conn: Id) | WriteEnd(conn: Id)

  datatype State = State(
    reg: Registry<Id>,
    slots: seq<Slot<Id>>,
    queue: seq<Task>,
    busy: seq<Task>,          // the tasks the workers are executing
    pipe: seq<TaskResult>,
    stranded: multiset<Id>,   // references whose task or result was lost
    fds: map<int, Endpoint>,  // the open descriptors
    freed: multiset<Id>,      // one entry for each time a client was freed
    next: Id)                 // the next connection number

  /** One step of the main loop or of a worker, with the answers its environment gives. */
  datatype Event =
    | HandshakeRequest(pid: int, queued: bool)
    | Take
    | OpenFailed(i: nat)
    | Opened(i: nat, c2s: int, s2c: int, posted: bool)
    | Finished(i: nat, verdict: Verdict, posted: bool)
    | ClientSays(slot: nat, cmd: string, queued: bool)
    | ClientGone(slot: nat)
    | ReadResult(inserted: bool, slotted: bool)

  // ---------------------------------------------------------------- who holds whom

  function TaskHolds(t: Task, c: Id): nat {
    if t.ClientTask? && t.client == c then 1 else 0
  }

  function ResultHolds(r: TaskResult, c: Id): nat {
    if r.ClientResult? && r.client == c then 1 else 0
  }

  /** How many of these tasks carry a reference to c. */
  function TasksHolding(ts: seq<Task>, c: Id): nat {
    if ts == [] then 0 else TaskHolds(ts[0], c) + TasksHolding(ts[1..], c)
  }

  /** How many of these results carry a reference to c. */
  function ResultsHolding(rs: seq<TaskResult>, c: Id): nat {
    if rs == [] then 0 else ResultHolds(rs[0], c) + ResultsHolding(rs[1..], c)
  }

  /** The references to c outside the registry: queued, in a worker, in the pipe, or lost. */
  function Outside(s: State, c: Id): nat {
    TasksHolding(s.queue, c) + TasksHolding(s.busy, c) + ResultsHolding(s.pipe, c) + s.stranded[c]
  }

  /** All references to c: the registry's own and those outside it. */
  function Holders(s: State, c: Id): nat {
    (if c in s.reg.linked then 1 else 0) + Outside(s, c)
  }

  function Refcount(s: State, c: Id): nat {
    if c in s.reg.heap then s.reg.heap[c].refcount else 0
  }

  // ---------------------------------------------------------------- the steps

  /** destroy_client_pipes: closing a descriptor that is not open would close somebody else's. */
  function CloseBoth(s: State, c2s: int, s2c: int): Outcome<State> {
    if c2s in s.fds && s2c in s.fds && c2s != s2c then Fine(s.(fds := s.fds - {c2s, s2c})) else Fault
  }

  /** creg_release_client, with the pipes closed when the client is freed. */
  function ReleaseRef(s: State, c: Id): Outcome<State> {
    if c !in s.reg.heap || s.reg.heap[c].refcount == 0 then Fault
    else
      var cell := s.reg.heap[c];
      var s' := s.(reg := Release(s.reg, c));
      if c in s'.reg.heap then Fine(s')
      else CloseBoth(s'.(freed := s'.freed + multiset{c}), cell.c2s, cell.s2c)
  }

  /** creg_remove: mark dead, unlink, release. */
  function RemoveClient(s: State, c: Id): Outcome<State> {
    if c !in s.reg.heap then Fault
    else ReleaseRef(s.(reg := Unlink(MarkDead(s.reg, c), c)), c)
  }

  /** server_remove_pollslots followed by creg_remove, as the client sweep does it. */
  function DropSlot(s: State, fd: int, c: Id): Outcome<State> {
    RemoveClient(s.(slots := RemoveFd(s.slots, fd)), c)
  }

  /** The effects of a handled command: acquire, then enqueue unless allocation fails. */
  function Applied(s: State, c: Id, effects: seq<Effect>, queued: bool): State
    requires c in s.reg.heap
    ensures Applied(s, c, effects, queued).reg.heap.Keys == s.reg.heap.Keys
    decreases |effects|
  {
    if effects == [] then s
    else
      var s' := match effects[0]
                case Acquired => s.(reg := Acquire(s.reg, c))
                case Enqueued(kind, _) =>
                  if queued then s.(queue := s.queue + [ClientTask(kind, c)])
                  else s.(stranded := s.stranded + multiset{c});
      Applied(s', c, effects[1..], queued)
  }

  /** The HSK_OK handler: register the client, then give it a poll slot. */
  function Admit(s: State, r: TaskResult, inserted: bool, slotted: bool): Outcome<State>
    requires r.HskOk?
  {
    if !inserted then CloseBoth(s, r.c2s, r.s2c)
    else
      var s' := s.(reg := Insert(s.reg, r.conn, r.pid, r.c2s, r.s2c));
      if !slotted then RemoveClient(s', r.conn)
      else Fine(s'.(slots := s'.slots + [Slot(r.c2s, Some(r.conn))]))
  }

  /** The RPC_DONE and AUTH_OK handlers: release first, then use the client. */
  function Reply(s: State, c: Id, login: bool): Outcome<State> {
    var s' :- ReleaseRef(s, c);
    if c !in s'.reg.heap then Fault
    else Fine(if login then s'.(reg := s'.reg.(heap := s'.reg.heap[c := s'.reg.heap[c].(loggedIn := true)])) else s')
  }

  /** The AUTH_NO and AUTH_UN handlers: release, drop the poll slot, remove. */
  function Reject(s: State, c: Id): Outcome<State> {
    var s' :- ReleaseRef(s, c);
    if c !in s'.reg.heap then Fault else DropSlot(s', s'.reg.heap[c].c2s, c)
  }

  ghost predicate HasClient(s: State, i: nat) {
    2 <= i < |s.slots| && s.slots[i].client.Some?
  }

  /** When a step can happen, environment included: open returns descriptors that are not open. */
  ghost predicate Enabled(s: State, e: Event) {
    match e
    case HandshakeRequest(_, _) => true
    case Take => s.queue != []
    case OpenFailed(i) => i < |s.busy| && s.busy[i].Handshake?
    case Opened(i, c2s, s2c, _) =>
      i < |s.busy| && s.busy[i].Handshake? && c2s !in s.fds && s2c !in s.fds && c2s != s2c
    case Finished(i, verdict, _) =>
      i < |s.busy| && s.busy[i].ClientTask? && (verdict != RPC_DONE <==> s.busy[i].kind == AUTHORISE)
    case ClientSays(i, _, _) => HasClient(s, i)
    case ClientGone(i) => HasClient(s, i)
    case ReadResult(_, _) => s.pipe != []
  }

  function WithoutTask(ts: seq<Task>, i: nat): seq<Task>
    requires i < |ts|
  {
    ts[..i] + ts[i + 1..]
  }

  ghost function Next(s: State, e: Event): Outcome<State>
    requires Enabled(s, e)
  {
    match e
    case HandshakeRequest(pid, queued) =>
      Fine(if queued then s.(queue := s.queue + [Handshake(pid)]) else s)
    case Take =>
      Fine(s.(queue := s.queue[1..], busy := s.busy + [s.queue[0]]))
    case OpenFailed(i) =>
      Fine(s.(busy := WithoutTask(s.busy, i)))
    case Opened(i, c2s, s2c, posted) =>
      var r := HskOk(s.busy[i].pid, c2s, s2c, s.next);
      Fine(s.(busy := WithoutTask(s.busy, i),
              fds := s.fds[c2s := ReadEnd(s.next)][s2c := WriteEnd(s.next)],
              next := s.next + 1,
              pipe := if posted then s.pipe + [r] else s.pipe))
    case Finished(i, verdict, posted) =>
      var t := s.busy[i];
      var s' := s.(busy := WithoutTask(s.busy, i));
      // a barrier task posts nothing, and a full pipe drops the record
      if posted && t.kind != BARRIER then Fine(s'.(pipe := s.pipe + [ClientResult(verdict, t.client)]))
      else Fine(s'.(stranded := s.stranded + multiset{t.client}))
    case ClientSays(i, cmd, queued) =>
      var c := s.slots[i].client.value;
      if c !in s.reg.heap then Fault
      else
        var (remove, effects) := Reaction(Meaning(cmd), s.reg.heap[c].loggedIn, s.reg.heap[c].dead);
        var s' := Applied(s, c, effects, queued);
        if remove then DropSlot(s', s.slots[i].fd, c) else Fine(s')
    case ClientGone(i) =>
      DropSlot(s, s.slots[i].fd, s.slots[i].client.value)
    case ReadResult(inserted, slotted) =>
      var r, s' := s.pipe[0], s.(pipe := s.pipe[1..]);
      match r {
        case HskOk(_, _, _, _) => Admit(s', r, inserted, slotted)
        case ClientResult(AUTH_OK, c) => Reply(s', c, true)
        case ClientResult(RPC_DONE, c) => Reply(s', c, false)
        case ClientResult(_, c) => Reject(s', c)
      }
  }

  // ---------------------------------------------------------------- what every state keeps

  /** Each allocated client's refcount is the number of its holders; nobody holds an unallocated client. */
  ghost predicate Ledger(s: State) {
    forall c: Id :: Holders(s, c) == Refcount(s, c)
  }

  /** Allocated clients are held, and are dead exactly when they are out of the list. */
  ghost predicate Lives(s: State) {
    && Distinct(s.reg.linked)
    && (forall c :: c in s.reg.heap ==> s.reg.heap[c].refcount > 0)
    && (forall c :: c in s.reg.heap ==> (s.reg.heap[c].dead <==> c !in s.reg.linked))
  }

  /** The poll set: the two self-pipes, then one slot for each linked client, polling its read end. */
  ghost predicate SlotsAgree(s: State) {
    && |s.slots| >= 2 && s.slots[0].client == None && s.slots[1].client == None
    && (forall i :: 2 <= i < |s.slots| ==> s.slots[i].client.Some?)
    && (forall x :: x in s.slots && x.client.Some? ==>
                      && x.client.value in s.reg.linked && x.client.value in s.reg.heap
                      && x.fd == s.reg.heap[x.client.value].c2s)
    && (forall c :: c in s.reg.linked ==> c in s.reg.heap && Slot(s.reg.heap[c].c2s, Some(c)) in s.slots)
    && DistinctFds(s.slots)
  }

  /** Both ends of this connection are open, under these descriptors. */
  ghost predicate Owns(s: State, conn: Id, c2s: int, s2c: int) {
    && c2s in s.fds && s.fds[c2s] == ReadEnd(conn)
    && s2c in s.fds && s.fds[s2c] == WriteEnd(conn)
  }

  /** Every client and every pending handshake owns its two open descriptors, and nobody else's. */
  ghost predicate Descriptors(s: State) {
    && |s.slots| >= 2
    && (forall k :: 0 <= k < 2 ==> s.slots[k].fd in s.fds && s.fds[s.slots[k].fd] == SelfPipe(k))
    && (forall c :: c in s.reg.heap ==> c < s.next && Owns(s, c, s.reg.heap[c].c2s, s.reg.heap[c].s2c))
    && (forall i :: 0 <= i < |s.pipe| && s.pipe[i].HskOk? ==> Pending(s, s.pipe[i]))
    && (forall i, j :: 0 <= i < j < |s.pipe| && s.pipe[i].HskOk? && s.pipe[j].HskOk? ==> s.pipe[i].conn != s.pipe[j].conn)
  }

  ghost predicate Pending(s: State, r: TaskResult)
    requires r.HskOk?
  {
    r.conn < s.next && r.conn !in s.reg.heap && r.conn !in s.freed && Owns(s, r.conn, r.c2s, r.s2c)
  }

  /** A client is freed at most once, and is not allocated afterwards. */
  ghost predicate FreedOnce(s: State) {
    && (forall c: Id :: s.freed[c] <= 1)
    && (forall c :: c in s.freed ==> c !in s.reg.heap && c < s.next)
  }

  ghost predicate Inv(s: State) {
    Ledger(s) && Lives(s) && SlotsAgree(s) && Descriptors(s) && FreedOnce(s)
  }

  /** The only steps that need a promise: a reject needs its client linked, a reply needs it held by someone else. */
  ghost predicate Guard(s: State, e: Event)
    requires Enabled(s, e)
  {
    e.ReadResult? && s.pipe[0].ClientResult? ==>
      var c := s.pipe[0].client;
      || c in s.reg.linked
      || (Accepted(s.pipe[0].verdict) && Outside(s.(pipe := s.pipe[1..]), c) > 0)
  }
}
