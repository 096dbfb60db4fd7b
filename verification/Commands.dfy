/** Dispatch of a client's request line (server/src/commands.c). */
module Commands {
  import opened Common

  /** What a request line means, before the state of the client is looked at. */
  datatype Request = Login(username: string) | Disconnect | Rpc(kind: TaskType, args: string) | Unknown

  /** One observable effect of handling a command, in program order. */
  datatype Effect = Acquired | Enqueued(kind: TaskType, request: string)

  /** The keyword that selects each kind of task, with its trailing space; none for HANDSHAKE. */
  function Keyword(kind: TaskType): string {
    match kind
    case HANDSHAKE => ""
    case AUTHORISE => "Login "
    case CREATE_CANVAS => "create_canvas "
    case DESTROY_CANVAS => "destroy_canvas "
    case CREATE_SPRITE => "create_sprite "
    case CREATE_RECTANGLE => "create_rectangle "
    case CREATE_CIRCLE => "create_circle "
    case DESTROY_SPRITE => "destroy_sprite "
    case PLACE_SPRITE => "place_sprite "
    case PLACEMENT_UP => "placement_up "
    case PLACEMENT_DOWN => "placement_down "
    case PLACEMENT_TOP => "placement_top "
    case PLACEMENT_BOTTOM => "placement_bottom "
    case DESTROY_PLACEMENT => "destroy_placement "
    case SET_ANIM_PARAM => "set_animation_params "
    case GENERATE => "generate "
    case SHARE => "share_canvas "
    case BARRIER => "barrier "
  }

  /** strncmp(cmd, word, strlen(word)) == 0. */
  predicate StartsWith(cmd: string, word: string) {
    |word| <= |cmd| && cmd[..|word|] == word
  }

  /** The line selects this kind of task. */
  predicate Selects(cmd: string, kind: TaskType) {
    kind != HANDSHAKE && StartsWith(cmd, Keyword(kind))
  }

  /** The meaning of a line, read off the keyword table. */
  ghost function Meaning(cmd: string): Request {
    if StartsWith(cmd, "Disconnect") then Disconnect
    else if exists kind :: Selects(cmd, kind) then
      var kind :| Selects(cmd, kind);
      if kind == AUTHORISE then Login(cmd[6..]) else Rpc(kind, cmd[|Keyword(kind)|..])
    else Unknown
  }

  /** What the server does about a request from a client in the given state: remove it or not, and which effects. */
  function Reaction(request: Request, loggedIn: bool, dead: bool): (bool, seq<Effect>) {
    match request
    case Login(name) =>
      if loggedIn then (false, []) else if dead then (true, []) else (false, [Acquired, Enqueued(AUTHORISE, name)])
    case Disconnect => (true, [])
    case Rpc(kind, args) => if dead then (true, []) else (false, [Acquired, Enqueued(kind, args)])
    case Unknown => (false, [])
  }

  function At(s: string, i: nat): char {
    if i < |s| then s[i] else '\0'
  }

  /** The only kind of task a line can select, told from at most four of its characters. */
  function Candidate(cmd: string): TaskType {
    match At(cmd, 0)
    case 'L' => AUTHORISE
    case 'c' => (match At(cmd, 8)
                 case 'a' => CREATE_CANVAS
                 case 'p' => CREATE_SPRITE
                 case 'e' => CREATE_RECTANGLE
                 case _ => CREATE_CIRCLE)
    case 'd' => (match At(cmd, 8)
                 case 'c' => DESTROY_CANVAS
                 case 's' => DESTROY_SPRITE
                 case _ => DESTROY_PLACEMENT)
    case 'p' => if At(cmd, 5) == '_' then PLACE_SPRITE
                else (match At(cmd, 10)
                      case 'u' => PLACEMENT_UP
                      case 'd' => PLACEMENT_DOWN
                      case 't' => PLACEMENT_TOP
                      case _ => PLACEMENT_BOTTOM)
    case 's' => if At(cmd, 1) == 'h' then SHARE else SET_ANIM_PARAM
    case 'g' => GENERATE
    case 'b' => BARRIER
    case _ => HANDSHAKE
  }

  /** A line that starts with a keyword carries that keyword's characters. */
  lemma PrefixChars(cmd: string, word: string)
    requires StartsWith(cmd, word)
    ensures forall i :: 0 <= i < |word| ==> At(cmd, i) == At(word, i)
  {
    forall i | 0 <= i < |word| ensures cmd[i] == word[i] {
      assert cmd[i] == cmd[..|word|][i];
    }
  }

  lemma KeywordCandidate(kind: TaskType)
    requires kind != HANDSHAKE
    ensures Candidate(Keyword(kind)) == kind
    ensures |Keyword(kind)| >= match At(Keyword(kind), 0)
                               case 'c' => 9
                               case 'd' => 9
                               case 'p' => 11
                               case _ => 2
  {
  }

  /** The keyword table is prefix-free: a line selects at most one kind of task. */
  lemma SelectsOne(cmd: string, a: TaskType, b: TaskType)
    requires Selects(cmd, a) && Selects(cmd, b)
    ensures a == b
    ensures !StartsWith(cmd, "Disconnect")
  {
    OnlyCandidate(cmd, a);
    OnlyCandidate(cmd, b);
    if StartsWith(cmd, "Disconnect") {
      PrefixChars(cmd, "Disconnect");
    }
  }

  lemma OnlyCandidate(cmd: string, kind: TaskType)
    requires Selects(cmd, kind)
    ensures Candidate(cmd) == kind && At(cmd, 0) != 'D'
  {
    PrefixChars(cmd, Keyword(kind));
    KeywordCandidate(kind);
  }

  /** Whatever keyword a line starts with is its meaning. */
  lemma MeaningOf(cmd: string, kind: TaskType)
    requires Selects(cmd, kind)
    ensures Meaning(cmd) == if kind == AUTHORISE then Login(cmd[6..]) else Rpc(kind, cmd[|Keyword(kind)|..])
  {
    SelectsOne(cmd, kind, kind);
    forall other | Selects(cmd, other) ensures other == kind {
      SelectsOne(cmd, kind, other);
    }
  }

  /** A line that starts with no keyword means nothing. */
  lemma NoMeaning(cmd: string)
    requires !StartsWith(cmd, "Disconnect") && forall kind :: !Selects(cmd, kind)
    ensures Meaning(cmd) == Unknown
  {
  }

  /** The line asks for this task, and the client's login state does not make the request void. */
  predicate Requests(cmd: string, loggedIn: bool, kind: TaskType) {
    Selects(cmd, kind) && !(kind == AUTHORISE && loggedIn)
  }

  /**
   What a client can count on. A task of a kind is queued, with the rest of the line as its request, exactly when
   the client is alive and the line asks for it; the client is removed exactly for a Disconnect, or for a request
   when it is dead; a reference is taken exactly with a task, before it; and every other line does nothing at all.
   */
  ghost predicate Does(cmd: string, loggedIn: bool, dead: bool, remove: bool, effects: seq<Effect>) {
    && (forall kind, args :: Enqueued(kind, args) in effects <==>
                             !dead && Requests(cmd, loggedIn, kind) && args == cmd[|Keyword(kind)|..])
    && (remove <==> StartsWith(cmd, "Disconnect") || (dead && exists kind :: Requests(cmd, loggedIn, kind)))
    && (effects != [] ==> !remove && |effects| == 2 && effects[0] == Acquired && effects[1].Enqueued?)
  }

  lemma KeywordDoes(cmd: string, loggedIn: bool, dead: bool, kind: TaskType)
    requires Selects(cmd, kind)
    ensures var (remove, effects) := Reaction(Meaning(cmd), loggedIn, dead); Does(cmd, loggedIn, dead, remove, effects)
  {
    MeaningOf(cmd, kind);
    SelectsOne(cmd, kind, kind);
    assert kind == AUTHORISE ==> |Keyword(kind)| == 6;
    forall other | Selects(cmd, other) ensures other == kind {
      SelectsOne(cmd, kind, other);
    }
    assert Requests(cmd, loggedIn, kind) <==> !(kind == AUTHORISE && loggedIn);
  }

  lemma WhatALineDoes(cmd: string, loggedIn: bool, dead: bool)
    ensures var (remove, effects) := Reaction(Meaning(cmd), loggedIn, dead); Does(cmd, loggedIn, dead, remove, effects)
  {
    if kind :| Selects(cmd, kind) {
      KeywordDoes(cmd, loggedIn, dead, kind);
    } else if !StartsWith(cmd, "Disconnect") {
      NoMeaning(cmd);
    }
  }

  /** A request of a live client queues the task it asks for, with the rest of the line. */
  lemma RequestReaction(cmd: string, loggedIn: bool, kind: TaskType)
    requires Requests(cmd, loggedIn, kind)
    ensures Reaction(Meaning(cmd), loggedIn, false) == (false, [Acquired, Enqueued(kind, cmd[|Keyword(kind)|..])])
  {
    MeaningOf(cmd, kind);
    assert kind == AUTHORISE ==> |Keyword(kind)| == 6;
  }

  /** Any line that is no request and no Disconnect is ignored. */
  lemma IdleReaction(cmd: string, loggedIn: bool)
    requires !StartsWith(cmd, "Disconnect") && forall kind :: !Requests(cmd, loggedIn, kind)
    ensures Reaction(Meaning(cmd), loggedIn, false) == (false, [])
  {
    if kind :| Selects(cmd, kind) {
      MeaningOf(cmd, kind);
      assert !Requests(cmd, loggedIn, kind);
    } else {
      NoMeaning(cmd);
    }
  }

  /** The position of a kind's test in the chain. */
  function Rank(kind: TaskType): nat {
    match kind
    case HANDSHAKE => 16
    case AUTHORISE => 16
    case CREATE_CANVAS => 0
    case DESTROY_CANVAS => 1
    case CREATE_SPRITE => 2
    case CREATE_RECTANGLE => 3
    case CREATE_CIRCLE => 4
    case DESTROY_SPRITE => 5
    case PLACE_SPRITE => 6
    case PLACEMENT_UP => 7
    case PLACEMENT_DOWN => 8
    case PLACEMENT_TOP => 9
    case PLACEMENT_BOTTOM => 10
    case DESTROY_PLACEMENT => 11
    case SET_ANIM_PARAM => 12
    case GENERATE => 13
    case SHARE => 14
    case BARRIER => 15
  }

  function RequestRank(request: Request): nat {
    if request.Rpc? then Rank(request.kind) else 16
  }

  /** What each of the sixteen tests tells about the request. */
  ghost predicate Tells(cmd: string, request: Request, rank: nat) {
    && rank == RequestRank(request)
    && forall kind {:trigger Selects(cmd, kind)} :: Rank(kind) < 16 ==>
         if Selects(cmd, kind) then request == Rpc(kind, cmd[|Keyword(kind)|..])
         else request.Rpc? ==> request.kind != kind
  }

  /** Past the first two tests, a line means an RPC or nothing, and each later test tells which. */
  lemma MeaningTells(cmd: string)
    requires !StartsWith(cmd, "Login ") && !StartsWith(cmd, "Disconnect")
    ensures Meaning(cmd).Rpc? || Meaning(cmd).Unknown?
    ensures Tells(cmd, Meaning(cmd), RequestRank(Meaning(cmd)))
    ensures Meaning(cmd).Rpc? ==> Rank(Meaning(cmd).kind) < 16
  {
    forall kind | Rank(kind) < 16 && Selects(cmd, kind) ensures Meaning(cmd) == Rpc(kind, cmd[|Keyword(kind)|..]) {
      MeaningOf(cmd, kind);
    }
  }

  /** What the first n tests have done for a line of this meaning, whose own test has this rank. */
  ghost predicate SoFar(request: Request, rank: nat, dead: bool, effects: seq<Effect>, n: nat) {
    match request
    case Rpc(kind, args) =>
      if rank < n then !dead && effects == [Acquired, Enqueued(kind, args)] else effects == []
    case _ => effects == []
  }

  /** One of the sixteen independent tests: a matching line takes a reference, then queues a task. */
  method TestRpc(cmd: string, dead: bool, kind: TaskType, before: seq<Effect>, ghost request: Request, ghost rank: nat, ghost n: nat)
    returns (stop: bool, effects: seq<Effect>)
    requires Rank(kind) == n < 16
    requires Tells(cmd, request, rank) && SoFar(request, rank, dead, before, n)
    ensures stop ==> dead && effects == [] && request.Rpc?
    ensures !stop ==> SoFar(request, rank, dead, effects, n + 1)
  {
    stop, effects := false, before;
    assert StartsWith(cmd, Keyword(kind)) <==> Selects(cmd, kind);
    if StartsWith(cmd, Keyword(kind)) {
      if dead {
        return true, effects;
      }
      var args := cmd[|Keyword(kind)|..];
      effects := effects + [Acquired, Enqueued(kind, args)];
    } else {
      DifferentRank(request, kind);
    }
  }

  /** Each of the sixteen tests has its own place in the chain. */
  lemma DifferentRank(request: Request, kind: TaskType)
    requires request.Rpc? ==> request.kind != kind
    requires Rank(kind) < 16
    ensures RequestRank(request) != Rank(kind)
  {
  }

  /** The tests for making and dropping canvases and for making sprites. */
  method CreationTests(cmd: string, dead: bool, before: seq<Effect>, ghost request: Request, ghost rank: nat)
    returns (remove: bool, effects: seq<Effect>)
    requires Tells(cmd, request, rank) && SoFar(request, rank, dead, before, 0)
    ensures remove ==> dead && effects == [] && request.Rpc?
    ensures !remove ==> SoFar(request, rank, dead, effects, 4)
  {
    var stop: bool;
    effects := before;
    stop, effects := TestRpc(cmd, dead, CREATE_CANVAS, effects, request, rank, 0);
    if stop { return true, effects; }
    stop, effects := TestRpc(cmd, dead, DESTROY_CANVAS, effects, request, rank, 1);
    if stop { return true, effects; }
    stop, effects := TestRpc(cmd, dead, CREATE_SPRITE, effects, request, rank, 2);
    if stop { return true, effects; }
    stop, effects := TestRpc(cmd, dead, CREATE_RECTANGLE, effects, request, rank, 3);
    if stop { return true, effects; }
    remove := false;
  }

  /** The tests for circles, dropping and placing sprites, and moving a placement up. */
  method SpriteTests(cmd: string, dead: bool, before: seq<Effect>, ghost request: Request, ghost rank: nat)
    returns (remove: bool, effects: seq<Effect>)
    requires Tells(cmd, request, rank) && SoFar(request, rank, dead, before, 4)
    ensures remove ==> dead && effects == [] && request.Rpc?
    ensures !remove ==> SoFar(request, rank, dead, effects, 8)
  {
    var stop: bool;
    effects := before;
    stop, effects := TestRpc(cmd, dead, CREATE_CIRCLE, effects, request, rank, 4);
    if stop { return true, effects; }
    stop, effects := TestRpc(cmd, dead, DESTROY_SPRITE, effects, request, rank, 5);
    if stop { return true, effects; }
    stop, effects := TestRpc(cmd, dead, PLACE_SPRITE, effects, request, rank, 6);
    if stop { return true, effects; }
    stop, effects := TestRpc(cmd, dead, PLACEMENT_UP, effects, request, rank, 7);
    if stop { return true, effects; }
    remove := false;
  }

  /** The tests for the other moves of a placement and for dropping it. */
  method PlacementTests(cmd: string, dead: bool, before: seq<Effect>, ghost request: Request, ghost rank: nat)
    returns (remove: bool, effects: seq<Effect>)
    requires Tells(cmd, request, rank) && SoFar(request, rank, dead, before, 8)
    ensures remove ==> dead && effects == [] && request.Rpc?
    ensures !remove ==> SoFar(request, rank, dead, effects, 12)
  {
    var stop: bool;
    effects := before;
    stop, effects := TestRpc(cmd, dead, PLACEMENT_DOWN, effects, request, rank, 8);
    if stop { return true, effects; }
    stop, effects := TestRpc(cmd, dead, PLACEMENT_TOP, effects, request, rank, 9);
    if stop { return true, effects; }
    stop, effects := TestRpc(cmd, dead, PLACEMENT_BOTTOM, effects, request, rank, 10);
    if stop { return true, effects; }
    stop, effects := TestRpc(cmd, dead, DESTROY_PLACEMENT, effects, request, rank, 11);
    if stop { return true, effects; }
    remove := false;
  }

  /** The tests for animating, generating, sharing and the barrier. */
  method OutputTests(cmd: string, dead: bool, before: seq<Effect>, ghost request: Request, ghost rank: nat)
    returns (remove: bool, effects: seq<Effect>)
    requires Tells(cmd, request, rank) && SoFar(request, rank, dead, before, 12)
    ensures remove ==> dead && effects == [] && request.Rpc?
    ensures !remove ==> SoFar(request, rank, dead, effects, 16)
  {
    var stop: bool;
    effects := before;
    stop, effects := TestRpc(cmd, dead, SET_ANIM_PARAM, effects, request, rank, 12);
    if stop { return true, effects; }
    stop, effects := TestRpc(cmd, dead, GENERATE, effects, request, rank, 13);
    if stop { return true, effects; }
    stop, effects := TestRpc(cmd, dead, SHARE, effects, request, rank, 14);
    if stop { return true, effects; }
    stop, effects := TestRpc(cmd, dead, BARRIER, effects, request, rank, 15);
    if stop { return true, effects; }
    remove := false;
  }

  /** handle_command: a chain of independent prefix tests does exactly what the line means, once. */
  method HandleCommand(loggedIn: bool, dead: bool, cmd: string) returns (remove: bool, effects: seq<Effect>)
    ensures (remove, effects) == Reaction(Meaning(cmd), loggedIn, dead)
    ensures Does(cmd, loggedIn, dead, remove, effects)
  {
    WhatALineDoes(cmd, loggedIn, dead);
    effects := [];
    if StartsWith(cmd, "Login ") {
      MeaningOf(cmd, AUTHORISE);
      if loggedIn {
        return false, effects;
      }
      var username := cmd[6..];
      if dead {
        return true, effects;
      }
      return false, [Acquired, Enqueued(AUTHORISE, username)];
    }
    if StartsWith(cmd, "Disconnect") {
      return true, effects;
    }
    MeaningTells(cmd);
    remove, effects := RpcTests(cmd, dead, Meaning(cmd));
  }

  /** The sixteen tests together. */
  method RpcTests(cmd: string, dead: bool, ghost request: Request) returns (remove: bool, effects: seq<Effect>)
    requires Tells(cmd, request, RequestRank(request)) && (request.Rpc? || request.Unknown?)
    requires request.Rpc? ==> Rank(request.kind) < 16
    ensures (remove, effects) == Reaction(request, false, dead)
  {
    ghost var rank := RequestRank(request);
    remove, effects := CreationTests(cmd, dead, [], request, rank);
    if remove { return; }
    remove, effects := SpriteTests(cmd, dead, effects, request, rank);
    if remove { return; }
    remove, effects := PlacementTests(cmd, dead, effects, request, rank);
    if remove { return; }
    remove, effects := OutputTests(cmd, dead, effects, request, rank);
  }
}
