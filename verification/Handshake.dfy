/**
 The handshake between a client process (perform_handshake) and the worker that serves its
 HANDSHAKE task, with the kernel's FIFO rules in between. One handshake is outstanding for
 the client's pid. FIFOs of the same names may be left over from an earlier session, but no
 process has them open.

 A blocking open of a FIFO counts as present for the other side while it waits, which is what
 lets the worker's non-blocking open succeed against a client that is still blocked.
 */
module Handshake {
  import opened Common

  /** Which FIFO a path leads to: one left over, or the one the worker made. */
  datatype Inode = Stale | Fresh

  datatype ConnectStage = SYN_SENT | CONNECTED | DISCONNECTED | TIMED_OUT

  /** Where the worker is in its HANDSHAKE case. */
  datatype Server =
    | Asleep                 // no SIGUSR1 yet
    | Requested              // SIGUSR1 sent; the request is on its way to a worker
    | Lost                   // the request was merged with another, found the self-pipe full or was not queued
    | Unlinking
    | MakingC2S
    | MakingS2C
    | Signalling
    | OpeningRead
    | OpeningWrite(left: nat)   // tries left
    | Posting                // both ends open, past the last failure exit
    | Posted
    | Failing                // at hsk_fail
    | Finished

  /** Where the client is in perform_handshake. */
  datatype Client =
    | Calling
    | Suspended
    | Restored               // out of the wait loop, signals unblocked
    | AtRead                 // about to open the server-to-client FIFO
    | BlockedRead(on: Inode)
    | AtWrite                // about to open the client-to-server FIFO
    | BlockedWrite(on: Inode)
    | Returned(code: ErrType)

  datatype State = State(
    server: Server,
    client: Client,
    stage: ConnectStage,
    usr2: bool,              // SIGUSR2 sent and not yet delivered
    alarm: bool,             // an alarm is set
    c2s: Option<Inode>,      // what the client-to-server path leads to
    s2c: Option<Inode>,
    serverReads: bool,       // the worker's read end is open
    written: bool,           // the worker has opened its write end at some time
    connected: bool,         // SIGUSR2 has been delivered at some time
    early: bool)             // the alarm for the opens went off outside them

  const TRIES: nat := 11     // one open and MAX_OPEN_RETRIES more

  datatype Event =
    | ServerStep(works: bool)      // works: the system call made in this step succeeds if it can
    | ClientStep(works: bool)
    | DeliverUsr2
    | DeliverAlarm
    | DeliverShutdown              // SIGINT, SIGTERM, SIGQUIT or SIGHUP
    | MainLoopDrops                // the main loop closes and unlinks a connection it cannot register

  /** The client has the fresh server-to-client FIFO open for reading, or is blocked opening it. */
  predicate ClientReads(s: State) {
    s.client == BlockedRead(Fresh)
  }

  predicate SignalsOpen(c: Client) {
    !c.Calling? && !c.Returned?
  }

  ghost predicate Enabled(s: State, e: Event) {
    match e
    case ServerStep(_) => s.server !in {Asleep, Lost, Posted, Finished}
    case ClientStep(_) =>
      (match s.client
       case Suspended => s.stage != SYN_SENT
       case BlockedRead(on) => on == Fresh && s.written
       case BlockedWrite(on) => on == Fresh && s.serverReads
       case Returned(_) => false
       case _ => true)
    case DeliverUsr2 => s.usr2 && SignalsOpen(s.client)
    case DeliverAlarm => s.alarm && SignalsOpen(s.client)
    case DeliverShutdown => SignalsOpen(s.client)
    case MainLoopDrops => s.server == Posted
  }

  /** The worker's next place, given whether the client is there to be written to. */
  function ServerMove(p: Server, reader: bool, works: bool): Server {
    match p
    case Requested => if works then Unlinking else Lost
    case Unlinking => MakingC2S
    case MakingC2S => if works then MakingS2C else Failing
    case MakingS2C => if works then Signalling else Failing
    case Signalling => if works then OpeningRead else Failing
    case OpeningRead => if works then OpeningWrite(TRIES) else Failing
    case OpeningWrite(left) =>
      // a write end opens only against a reader; with none the call is tried again
      if left == 0 then Failing
      else if !reader then OpeningWrite(left - 1)
      else if works then Posting
      else Failing
    case Posting => Posted
    case Failing => Finished
    case _ => p
  }

  /** Both paths are unlinked at the start and at hsk_fail; in between each is made once. */
  function PathAfter(path: Option<Inode>, p: Server, making: Server, works: bool): Option<Inode> {
    if p == Unlinking || p == Failing then None else if p == making && works then Some(Fresh) else path
  }

  function ServerNext(s: State, works: bool): State {
    var p := ServerMove(s.server, ClientReads(s), works);
    s.(server := p,
       c2s := PathAfter(s.c2s, s.server, MakingC2S, works),
       s2c := PathAfter(s.s2c, s.server, MakingS2C, works),
       usr2 := s.usr2 || p == OpeningRead,
       serverReads := p.OpeningWrite? || p.Posting? || p.Posted?,
       written := s.written || p == Posting)
  }

  /** The client's next place. */
  function ClientMove(s: State, works: bool): Client {
    match s.client
    case Calling => if works then Suspended else Returned(SIG_FAIL)
    case Suspended => Restored
    case Restored => if s.stage == TIMED_OUT then Returned(TIMEDOUT) else AtRead
    case AtRead => if works && s.s2c.Some? then BlockedRead(s.s2c.value) else Returned(PIPE_FAIL)
    case BlockedRead(_) => AtWrite
    case AtWrite => if works && s.c2s.Some? then BlockedWrite(s.c2s.value) else Returned(PIPE_FAIL)
    case BlockedWrite(_) => Returned(SUCCESS)
    case Returned(_) => s.client
  }

  function ClientNext(s: State, works: bool): State {
    var p := ClientMove(s, works);
    s.(client := p,
       server := if p == Suspended then Requested else s.server,
       stage := if s.client == Calling then SYN_SENT else if p == Returned(PIPE_FAIL) then DISCONNECTED else s.stage,
       alarm := match s.client
                case Calling => works
                case Suspended => s.alarm && !works   // an alarm already pending survives alarm(0)
                case Restored => s.alarm || p == AtRead
                case BlockedWrite(_) => false
                case _ => s.alarm)
  }

  /** The client is blocked in an open. */
  predicate Blocked(c: Client) {
    c.BlockedRead? || c.BlockedWrite?
  }

  /** A delivered signal runs its handler and cuts short an open that is blocked, which then fails. */
  function Handled(s: State, stage: ConnectStage): State {
    s.(client := if Blocked(s.client) then Returned(PIPE_FAIL) else s.client,
       stage := if Blocked(s.client) then DISCONNECTED else stage)
  }

  /** The client is between its opens, past the alarm call that guards them. */
  predicate AtOpen(c: Client) {
    c.AtRead? || c.AtWrite?
  }

  ghost function Next(s: State, e: Event): State
    requires Enabled(s, e)
  {
    match e
    case ServerStep(works) => ServerNext(s, works)
    case ClientStep(works) => ClientNext(s, works)
    case DeliverUsr2 => Handled(s, CONNECTED).(usr2 := false, connected := true)
    case DeliverAlarm => Handled(s, TIMED_OUT).(alarm := false, early := s.early || AtOpen(s.client))
    case DeliverShutdown => Handled(s, DISCONNECTED)
    case MainLoopDrops => s.(server := Finished, serverReads := false, c2s := None, s2c := None)
  }

  ghost predicate Initial(s: State) {
    && s.server == Asleep && s.client == Calling && !s.usr2 && !s.alarm && !s.serverReads && !s.written && !s.connected && !s.early
    && s.c2s != Some(Fresh) && s.s2c != Some(Fresh)
  }

  // ---------------------------------------------------------------- what every state keeps

  /** The worker has made both FIFOs and sent SIGUSR2, and has not given up. */
  predicate PastSignal(p: Server) {
    p.OpeningRead? || p.OpeningWrite? || p.Posting? || p.Posted?
  }

  /** The worker has not sent SIGUSR2 yet. */
  predicate BeforeSignal(p: Server) {
    p.Asleep? || p.Requested? || p.Lost? || p.Unlinking? || p.MakingC2S? || p.MakingS2C? || p.Signalling?
  }

  /** The worker starts only for a client that is in its call; until it signals, nothing of its can be seen. */
  ghost predicate Beginning(s: State) {
    && (s.server.Asleep? ==> s.client.Calling? || s.client == Returned(SIG_FAIL))
    && (s.client.Calling? ==> s.server.Asleep?)
    && (s.client.Returned? ==> s.client.code in {SIG_FAIL, TIMEDOUT, PIPE_FAIL, SUCCESS})
    && (s.client == Returned(SIG_FAIL) ==> s.server.Asleep?)
    && (BeforeSignal(s.server) ==> !s.usr2 && !s.connected && !s.serverReads)
  }

  /**
   Nothing left over survives the start. Both FIFOs stand from before the signal until the worker gives up or the main
   loop drops them, and then neither is left behind.
   */
  ghost predicate Files(s: State) {
    && (s.server.MakingC2S? || s.server.Finished? ==> s.c2s == None && s.s2c == None)
    && (s.server.MakingS2C? ==> s.c2s == Some(Fresh) && s.s2c == None)
    && (s.server.Signalling? || PastSignal(s.server) ==> s.c2s == Some(Fresh) && s.s2c == Some(Fresh))
  }

  /** The worker's write end opens last, and the client gets past its read end only after that. */
  ghost predicate Ends(s: State) {
    && (s.written ==> s.server.Posting? || s.server.Posted? || s.server.Finished?)
    && (s.server.Posting? || s.server.Posted? ==> s.written && s.serverReads)
    && (s.server.OpeningWrite? ==> s.serverReads && s.server.left <= TRIES)
    && (s.client.AtWrite? || s.client.BlockedWrite? || s.client == Returned(SUCCESS) ==> s.written)
    && (s.client == Returned(SUCCESS) ==> !s.alarm)
  }

  /** Whatever can block the client has an alarm set, unless it went off too early. */
  ghost predicate Guarded(s: State) {
    && (s.client.Suspended? && s.stage == SYN_SENT ==> s.alarm)
    && (AtOpen(s.client) || Blocked(s.client) ==> s.alarm || s.early)
  }

  ghost predicate Inv(s: State) {
    Beginning(s) && Files(s) && Ends(s) && Guarded(s)
  }

  // ---------------------------------------------------------------- how far from the end

  function ServerRank(p: Server): nat {
    match p
    case Asleep => 20
    case Requested => 19
    case Lost => 0
    case Unlinking => 18
    case MakingC2S => 17
    case MakingS2C => 16
    case Signalling => 15
    case OpeningRead => 14
    case OpeningWrite(left) => left + 2
    case Posting => 2
    case Posted => 1
    case Failing => 1
    case Finished => 0
  }

  function ClientRank(c: Client): nat {
    match c
    case Calling => 7
    case Suspended => 6
    case Restored => 5
    case AtRead => 4
    case BlockedRead(_) => 3
    case AtWrite => 2
    case BlockedWrite(_) => 1
    case Returned(_) => 0
  }

  function Bit(b: bool): nat {
    if b then 1 else 0
  }

  function Measure(s: State): nat {
    2 * ServerRank(s.server) + 2 * ClientRank(s.client) + Bit(s.alarm) + Bit(s.usr2)
  }

  lemma InitialInv(s: State)
    requires Initial(s)
    ensures Inv(s)
  {
  }

  lemma ServerStepKeeps(s: State, works: bool)
    requires Inv(s) && Enabled(s, ServerStep(works))
    ensures Inv(ServerNext(s, works))
  {
    var s' := ServerNext(s, works);
    assert Beginning(s');
    assert Files(s');
    assert Ends(s');
    assert Guarded(s');
  }

  lemma ClientStepKeeps(s: State, works: bool)
    requires Inv(s) && Enabled(s, ClientStep(works))
    ensures Inv(ClientNext(s, works))
  {
    var s' := ClientNext(s, works);
    assert Beginning(s');
    assert Files(s');
    assert Ends(s');
    assert Guarded(s');
  }

  lemma SignalKeeps(s: State, e: Event)
    requires Inv(s) && Enabled(s, e) && (e.DeliverUsr2? || e.DeliverAlarm? || e.DeliverShutdown?)
    ensures Inv(Next(s, e))
    ensures Measure(Next(s, e)) + (if e.DeliverShutdown? then 0 else 1) <= Measure(s)
  {
  }

  lemma ServerStepProgress(s: State, works: bool)
    requires Enabled(s, ServerStep(works))
    ensures Measure(ServerNext(s, works)) < Measure(s)
  {
  }

  lemma ClientStepProgress(s: State, works: bool)
    requires Enabled(s, ClientStep(works)) && (s.client.Calling? ==> s.server.Asleep?)
    ensures Measure(ClientNext(s, works)) < Measure(s)
  {
  }

  /** Every interleaving of the two processes and the signals keeps the invariant, and gets nearer to the end. */
  lemma StepKeeps(s: State, e: Event)
    requires Inv(s) && Enabled(s, e)
    ensures Inv(Next(s, e))
    ensures Measure(Next(s, e)) + (if e.DeliverShutdown? then 0 else 1) <= Measure(s)
  {
    match e
    case ServerStep(works) => ServerStepKeeps(s, works); ServerStepProgress(s, works);
    case ClientStep(works) => ClientStepKeeps(s, works); ClientStepProgress(s, works);
    case DeliverUsr2 => SignalKeeps(s, e);
    case DeliverAlarm => SignalKeeps(s, e);
    case DeliverShutdown => SignalKeeps(s, e);
    case MainLoopDrops =>
  }

  // ---------------------------------------------------------------- runs

  ghost predicate Step(s: State, e: Event, s': State) {
    Enabled(s, e) && s' == Next(s, e)
  }

  ghost predicate IsRun(states: seq<State>, events: seq<Event>) {
    && |states| == |events| + 1 && Initial(states[0])
    && forall i :: 0 <= i < |events| ==> Step(states[i], events[i], states[i + 1])
  }

  lemma {:induction false} RunsKeepInv(states: seq<State>, events: seq<Event>, n: nat)
    requires IsRun(states, events) && n < |states|
    ensures Inv(states[n])
  {
    if n == 0 {
      InitialInv(states[0]);
    } else {
      RunsKeepInv(states, events, n - 1);
      assert Step(states[n - 1], events[n - 1], states[n]);
      StepKeeps(states[n - 1], events[n - 1]);
    }
  }

  /**
   Agreement: when perform_handshake returns SUCCESS the worker has opened both FIFO ends and is past
   every exit to hsk_fail: it is posting, has posted, or the main loop has since dropped what it posted.
   */
  lemma SuccessMeansBothEnds(states: seq<State>, events: seq<Event>, n: nat)
    requires IsRun(states, events) && n < |states| && states[n].client == Returned(SUCCESS)
    ensures states[n].written
    ensures states[n].server in {Posting, Posted, Finished}
    ensures states[n].server != Finished ==> states[n].serverReads
    ensures !states[n].alarm
  {
    RunsKeepInv(states, events, n);
  }

  /** A handshake that is given up, or dropped by the main loop, leaves neither FIFO behind. */
  lemma NoFifosLeft(states: seq<State>, events: seq<Event>, n: nat)
    requires IsRun(states, events) && n < |states| && states[n].server == Finished
    ensures states[n].c2s == None && states[n].s2c == None
  {
    RunsKeepInv(states, events, n);
  }

  /** Both FIFOs exist before the client can see CONNECTED, and stand until the worker gives up or the main loop drops them. */
  lemma ConnectedMeansFifosMade(states: seq<State>, events: seq<Event>, n: nat)
    requires IsRun(states, events) && n < |states| && states[n].connected
    ensures PastSignal(states[n].server) || states[n].server in {Failing, Finished}
    ensures PastSignal(states[n].server) ==> states[n].c2s == Some(Fresh) && states[n].s2c == Some(Fresh)
  {
    RunsKeepInv(states, events, n);
  }

  // ---------------------------------------------------------------- no deadlock

  /** How many events of a run are not shutdown signals. */
  function Moves(events: seq<Event>): nat {
    if events == [] then 0
    else Moves(events[..|events| - 1]) + (if events[|events| - 1].DeliverShutdown? then 0 else 1)
  }

  /** However the two sides interleave, a handshake has at most 54 events besides shutdown signals. */
  lemma {:induction false} HandshakeEnds(states: seq<State>, events: seq<Event>)
    requires IsRun(states, events)
    ensures Moves(events) + Measure(states[|events|]) <= 54
  {
    var n := |events|;
    if n > 0 {
      var before, path := events[..n - 1], states[..n];
      assert IsRun(path, before) by {
        forall i | 0 <= i < |before| ensures Step(path[i], before[i], path[i + 1]) {
          assert Step(states[i], events[i], states[i + 1]);
        }
      }
      HandshakeEnds(path, before);
      RunsKeepInv(states, events, n - 1);
      assert Step(states[n - 1], events[n - 1], states[n]);
      StepKeeps(states[n - 1], events[n - 1]);
    }
  }

  /** Nothing more can happen, short of a shutdown signal or the main loop's own decision. */
  ghost predicate Quiet(s: State) {
    && !Enabled(s, ServerStep(true)) && !Enabled(s, ClientStep(true))
    && !Enabled(s, DeliverUsr2) && !Enabled(s, DeliverAlarm)
  }

  /**
   When a handshake comes to rest, the worker is done, and the client has returned unless its alarm went
   off between arming it and blocking: then the open it is blocked in has no partner and no alarm left.
   */
  lemma RestMeansReturned(states: seq<State>, events: seq<Event>, n: nat)
    requires IsRun(states, events) && n < |states| && Quiet(states[n])
    ensures states[n].server in {Asleep, Lost, Posted, Finished}
    ensures states[n].client.Returned? || (states[n].early && (states[n].client.BlockedRead? || states[n].client.BlockedWrite?))
    ensures !states[n].client.Returned? && states[n].client == BlockedRead(Fresh) ==> !states[n].written
  {
    RunsKeepInv(states, events, n);
  }

  /**
   A request that is lost never looks like a success: the client sees no CONNECTED and cannot return SUCCESS,
   and when the handshake comes to rest with no alarm spent early it has returned an error.
   */
  lemma LostRequestFails(states: seq<State>, events: seq<Event>, n: nat)
    requires IsRun(states, events) && n < |states| && states[n].server == Lost
    ensures !states[n].connected && !states[n].written && states[n].client != Returned(SUCCESS)
    ensures Quiet(states[n]) && !states[n].early ==> states[n].client.Returned? && states[n].client.code in {TIMEDOUT, PIPE_FAIL}
  {
    RunsKeepInv(states, events, n);
    if Quiet(states[n]) {
      RestMeansReturned(states, events, n);
    }
  }

  lemma Extended(states: seq<State>, events: seq<Event>, e: Event) returns (longer: seq<State>, more: seq<Event>)
    requires IsRun(states, events) && Enabled(states[|events|], e)
    ensures IsRun(longer, more) && longer[|more|] == Next(states[|events|], e)
    ensures more == events + [e] && states <= longer
  {
    longer, more := states + [Next(states[|events|], e)], events + [e];
    forall i | 0 <= i < |more| ensures Step(longer[i], more[i], longer[i + 1]) {
      if i < |events| {
        assert Step(states[i], events[i], states[i + 1]);
      }
    }
  }

  /** The client has called, and the worker has made both FIFOs and is about to open its read end. */
  ghost function AfterSignal(): State {
    State(OpeningRead, Suspended, SYN_SENT, true, true, Some(Fresh), Some(Fresh), false, false, false, false)
  }

  /** A step of one of the two processes in which its system call works. */
  predicate Smooth(e: Event) {
    e == ServerStep(true) || e == ClientStep(true)
  }

  lemma SignalReached() returns (states: seq<State>, events: seq<Event>)
    ensures IsRun(states, events) && states[|events|] == AfterSignal()
    ensures forall i :: 0 <= i < |events| ==> Smooth(events[i])
  {
    states := [State(Asleep, Calling, DISCONNECTED, false, false, None, None, false, false, false, false)];
    events := [];
    states, events := Extended(states, events, ClientStep(true));
    states, events := Extended(states, events, ServerStep(true));
    states, events := Extended(states, events, ServerStep(true));
    states, events := Extended(states, events, ServerStep(true));
    states, events := Extended(states, events, ServerStep(true));
    states, events := Extended(states, events, ServerStep(true));
  }

  /** The client has seen the signal, and the alarm it set for its opens has gone off before the first of them. */
  ghost function AfterAlarm(): State {
    State(OpeningRead, AtRead, TIMED_OUT, false, false, Some(Fresh), Some(Fresh), false, false, true, true)
  }

  lemma AlarmReached() returns (states: seq<State>, events: seq<Event>)
    ensures IsRun(states, events) && states[|events|] == AfterAlarm()
  {
    states, events := SignalReached();
    states, events := Extended(states, events, DeliverUsr2);
    states, events := Extended(states, events, ClientStep(true));
    states, events := Extended(states, events, ClientStep(true));
    states, events := Extended(states, events, DeliverAlarm);
  }

  /** The exception is real: a handshake can come to rest with the client blocked for good, its alarm spent before it blocked. */
  lemma EarlyAlarmStrandsClient() returns (states: seq<State>, events: seq<Event>)
    ensures IsRun(states, events) && Quiet(states[|events|])
    ensures states[|events|].client == BlockedRead(Fresh) && states[|events|].server == Finished
  {
    states, events := AlarmReached();
    states, events := Extended(states, events, ClientStep(true));
    states, events := Extended(states, events, ServerStep(true));
    states, events := Extended(states, events, ServerStep(false));
    states, events := Extended(states, events, ServerStep(true));
  }

  // ---------------------------------------------------------------- success

  /** The worker's try found the client, or still can, and nothing has gone wrong since. */
  ghost predicate Meeting(s: State) {
    && Inv(s)
    && match s.server
       case OpeningWrite(left) => left > 0 && s.client == BlockedRead(Fresh)
       case Posting => s.client in {BlockedRead(Fresh), AtWrite, BlockedWrite(Fresh), Returned(SUCCESS)}
       case Posted => s.client in {BlockedRead(Fresh), AtWrite, BlockedWrite(Fresh), Returned(SUCCESS)}
       case _ => false
  }

  /** The steps the two still have to make: two of the worker's, three of the client's. */
  function ToMake(s: State): nat {
    (match s.server case OpeningWrite(_) => 2 case Posting => 1 case _ => 0) +
    (match s.client case BlockedRead(_) => 3 case AtWrite => 2 case BlockedWrite(_) => 1 case _ => 0)
  }

  lemma MeetingStep(s: State, e: Event)
    requires Meeting(s)
    ensures Smooth(e) && Enabled(s, e) ==> Meeting(Next(s, e)) && ToMake(Next(s, e)) + 1 == ToMake(s)
    ensures ToMake(s) > 0 ==> Enabled(s, ServerStep(true)) || Enabled(s, ClientStep(true))
    ensures ToMake(s) == 0 <==> s.server == Posted && s.client == Returned(SUCCESS)
  {
    if Smooth(e) && Enabled(s, e) {
      StepKeeps(s, e);
    }
  }

  lemma {:induction false} MeetingRun(states: seq<State>, events: seq<Event>, n: nat, m: nat)
    requires IsRun(states, events) && n <= m <= |events| && Meeting(states[n])
    requires forall i :: n <= i < m ==> Smooth(events[i])
    ensures Meeting(states[m]) && ToMake(states[m]) + m - n == ToMake(states[n])
  {
    if m > n {
      MeetingRun(states, events, n, m - 1);
      assert Step(states[m - 1], events[m - 1], states[m]);
      MeetingStep(states[m - 1], events[m - 1]);
    }
  }

  /**
   A client that is blocked in its first open when the worker has a try left is connected to: in every run that goes on
   undisturbed from there, exactly five more steps can be made, in whatever order, and after them the worker has posted
   and the client has returned SUCCESS.
   */
  lemma MetMeansSuccess(states: seq<State>, events: seq<Event>, n: nat)
    requires IsRun(states, events) && n <= |events| && states[n].client == BlockedRead(Fresh)
    requires states[n].server.OpeningWrite? && states[n].server.left > 0
    requires forall i :: n <= i < |events| ==> Smooth(events[i])
    ensures |events| <= n + 5
    ensures |events| < n + 5 ==> exists e :: Smooth(e) && Enabled(states[|events|], e)
    ensures |events| == n + 5 ==> states[|events|].server == Posted && states[|events|].client == Returned(SUCCESS)
  {
    RunsKeepInv(states, events, n);
    MeetingRun(states, events, n, |events|);
    MeetingStep(states[|events|], ServerStep(true));
    if |events| < n + 5 {
      assert Enabled(states[|events|], ServerStep(true)) || Enabled(states[|events|], ClientStep(true));
      assert Smooth(ServerStep(true)) && Smooth(ClientStep(true));
    }
  }

  /** The client has seen the signal and is about to open, and the worker has made some tries in vain. */
  ghost function Trying(tries: nat): State
    requires tries <= TRIES
  {
    State(OpeningWrite(TRIES - tries), AtRead, CONNECTED, false, true, Some(Fresh), Some(Fresh), true, false, true, false)
  }

  lemma TryingBegins() returns (states: seq<State>, events: seq<Event>)
    ensures IsRun(states, events) && states[|events|] == Trying(0)
    ensures forall i :: 0 <= i < |events| ==> Smooth(events[i]) || events[i] == DeliverUsr2
  {
    states, events := SignalReached();
    states, events := Extended(states, events, DeliverUsr2);
    states, events := Extended(states, events, ClientStep(true));
    states, events := Extended(states, events, ClientStep(true));
    states, events := Extended(states, events, ServerStep(true));
  }

  lemma {:induction false} TryingReached(tries: nat) returns (states: seq<State>, events: seq<Event>)
    requires tries <= TRIES
    ensures IsRun(states, events) && states[|events|] == Trying(tries)
    ensures forall i :: 0 <= i < |events| ==> Smooth(events[i]) || events[i] == DeliverUsr2
  {
    if tries == 0 {
      states, events := TryingBegins();
    } else {
      states, events := TryingReached(tries - 1);
      assert Next(Trying(tries - 1), ServerStep(true)) == Trying(tries);
      states, events := Extended(states, events, ServerStep(true));
    }
  }

  /** A handshake can succeed, at any of the worker's eleven tries: no call fails, and SIGUSR2 is the only signal. */
  lemma SuccessAtAnyTry(vain: nat) returns (states: seq<State>, events: seq<Event>, met: nat)
    requires vain < 11
    ensures IsRun(states, events) && forall i :: 0 <= i < |events| ==> Smooth(events[i]) || events[i] == DeliverUsr2
    ensures met < |states| && states[met].server == OpeningWrite(11 - vain) && states[met].client == BlockedRead(Fresh)
    ensures states[|events|].server == Posted && states[|events|].client == Returned(SUCCESS)
  {
    states, events := TryingReached(vain);
    states, events := Extended(states, events, ClientStep(true));
    met := |events|;
    states, events := Extended(states, events, ServerStep(true));
    states, events := Extended(states, events, ServerStep(true));
    states, events := Extended(states, events, ClientStep(true));
    states, events := Extended(states, events, ClientStep(true));
    states, events := Extended(states, events, ClientStep(true));
  }

  /** Eleven tries are all there are: a client that comes to its open later finds the worker giving up. */
  lemma TriesRunOut() returns (states: seq<State>, events: seq<Event>)
    ensures IsRun(states, events) && forall i :: 0 <= i < |events| ==> Smooth(events[i]) || events[i] == DeliverUsr2
    ensures states[|events|].server == Failing && states[|events|].client == AtRead
  {
    states, events := TryingReached(11);
    states, events := Extended(states, events, ServerStep(true));
  }

  /** A blocked open returns exactly when the worker has the other end of that very FIFO: one left over never gets a partner. */
  lemma OpensMeet(s: State, works: bool)
    requires s.client.BlockedRead? || s.client.BlockedWrite?
    ensures Enabled(s, ClientStep(works)) <==>
            s.client.on == Fresh && if s.client.BlockedRead? then s.written else s.serverReads
  {
  }

  /** The alarm for the answer is cancelled before the one for the opens is set, and that one when both are done. */
  lemma AlarmsAreCancelled(s: State, works: bool)
    requires Enabled(s, ClientStep(works))
    ensures s.client == Suspended && works ==> !Next(s, ClientStep(works)).alarm
    ensures s.client == Restored && s.stage != TIMED_OUT ==> Next(s, ClientStep(works)).alarm
    ensures s.client.BlockedWrite? ==> !Next(s, ClientStep(works)).alarm
  {
  }

  /** The worker gives up exactly when a call of its own fails, or its last try has found no reader. */
  lemma WhenTheWorkerGivesUp(s: State, works: bool)
    requires Inv(s) && Enabled(s, ServerStep(works)) && s.server != Failing
    ensures Next(s, ServerStep(works)).server == Failing <==>
            || (!works && s.server in {MakingC2S, MakingS2C, Signalling, OpeningRead})
            || s.server == OpeningWrite(0)
            || (!works && s.server.OpeningWrite? && s.client == BlockedRead(Fresh))
  {
    assert Next(s, ServerStep(works)).server == ServerMove(s.server, ClientReads(s), works);
  }

  /** What each result of perform_handshake tells, when it is returned by a step of the client's own. */
  lemma WhatTheClientReturns(s: State, works: bool, code: ErrType)
    requires Inv(s) && Enabled(s, ClientStep(works))
    ensures Next(s, ClientStep(works)).client == Returned(code) <==>
            match code
            case SIG_FAIL => s.client == Calling && !works
            case TIMEDOUT => s.client == Restored && s.stage == TIMED_OUT
            case PIPE_FAIL =>
              || (s.client == AtRead && (!works || s.s2c == None))
              || (s.client == AtWrite && (!works || s.c2s == None))
            case SUCCESS => s.client == BlockedWrite(Fresh)
            case _ => false
  {
    assert Next(s, ClientStep(works)).client == ClientMove(s, works);
  }

  /**
   A signal ends the handshake exactly when it cuts short an open, and the result is always PIPE_FAIL; otherwise the client
   goes on with the stage that signal stands for.
   */
  lemma WhatASignalReturns(s: State, e: Event)
    requires Enabled(s, e) && (e.DeliverUsr2? || e.DeliverAlarm? || e.DeliverShutdown?)
    ensures Next(s, e).client == if s.client.BlockedRead? || s.client.BlockedWrite? then Returned(PIPE_FAIL) else s.client
    ensures Next(s, e).stage == if s.client.BlockedRead? || s.client.BlockedWrite? || e.DeliverShutdown? then DISCONNECTED
                                else if e.DeliverUsr2? then CONNECTED else TIMED_OUT
    ensures Next(s, e).usr2 <==> s.usr2 && !e.DeliverUsr2?
    ensures Next(s, e).alarm <==> s.alarm && !e.DeliverAlarm?
  {
  }

  /** From its call to its return, any signal that is set can reach the client, and the main loop can drop what was posted. */
  lemma SignalsCanCome(s: State)
    requires Inv(s) && !s.client.Calling? && !s.client.Returned?
    ensures Enabled(s, DeliverShutdown) && (s.usr2 ==> Enabled(s, DeliverUsr2)) && (s.alarm ==> Enabled(s, DeliverAlarm))
    ensures s.server == Posted ==> Enabled(s, MainLoopDrops)
  {
  }

  /** A client that waits for an answer is never stuck: its alarm can go off, and then it returns TIMEDOUT unless a signal comes between. */
  lemma NoAnswerTimesOut(s: State)
    requires Inv(s) && s.client.Suspended? && s.stage == SYN_SENT
    ensures Enabled(s, DeliverAlarm)
    ensures var s1 := Next(s, DeliverAlarm);
            && Enabled(s1, ClientStep(true))
            && var s2 := Next(s1, ClientStep(true));
               Enabled(s2, ClientStep(true)) && Next(s2, ClientStep(true)).client == Returned(TIMEDOUT)
  {
  }

  // ---------------------------------------------------------------- the worker's retry loop

  /** What one non-blocking open for writing returns: a descriptor, no reader yet, or another failure. */
  datatype OpenAnswer = Opened(fd: nat) | NoReader | OtherError

  /**
   The worker's opens of the write end, against any sequence of answers. It makes at most 11 tries, stops at
   the first answer that is not a missing reader, and has a descriptor exactly when that answer is one.
   */
  method OpenWriteEnd(answers: nat -> OpenAnswer) returns (fd: int, tries: nat)
    ensures 1 <= tries <= TRIES
    ensures forall i :: 0 <= i < tries - 1 ==> answers(i) == NoReader
    ensures answers(tries - 1) == NoReader ==> tries == TRIES
    ensures fd == match answers(tries - 1) case Opened(d) => d case _ => -1
  {
    fd, tries := -1, 1;
    match answers(0)
    case Opened(d) => fd := d;
    case OtherError =>
    case NoReader =>
      var attempts := 0;
      while attempts < TRIES - 1
        invariant 0 <= attempts <= TRIES - 1 && tries == attempts + 1 && fd == -1
        invariant forall i :: 0 <= i < tries ==> answers(i) == NoReader
      {
        tries := tries + 1;
        match answers(tries - 1) {
          case Opened(d) =>
            fd := d;
            return;
          case OtherError =>
            return;
          case NoReader =>
        }
        attempts := attempts + 1;
      }
  }
}
