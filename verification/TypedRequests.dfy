/** From the line a client types to the request the server takes it for: the two ends of the wire agree on the words. */
module TypedRequests {
  import opened Common
  import opened Whitespace
  import opened Transport
  import opened Commands

  /**
   A typed Disconnect ends the session: it is the last record the server reads, whatever is typed after it, and the
   server removes the client for it.
   */
  lemma DisconnectIsUnderstood(line: string, later: string)
    requires Fits(line) && Words(line) == ["Disconnect"]
    ensures Records(Wire(Session(line + ['\n'] + later))) == ["Disconnect"]
    ensures Meaning("Disconnect") == Disconnect
    ensures forall loggedIn, dead :: Reaction(Meaning("Disconnect"), loggedIn, dead) == (true, [])
  {
    OneLine(line, later);
    ServerReadsTheSession(line + ['\n'] + later);
  }

  /** The word a request starts with, as it is typed. */
  function Verb(kind: TaskType): string {
    match kind
    case HANDSHAKE => ""
    case AUTHORISE => "Login"
    case CREATE_CANVAS => "create_canvas"
    case DESTROY_CANVAS => "destroy_canvas"
    case CREATE_SPRITE => "create_sprite"
    case CREATE_RECTANGLE => "create_rectangle"
    case CREATE_CIRCLE => "create_circle"
    case DESTROY_SPRITE => "destroy_sprite"
    case PLACE_SPRITE => "place_sprite"
    case PLACEMENT_UP => "placement_up"
    case PLACEMENT_DOWN => "placement_down"
    case PLACEMENT_TOP => "placement_top"
    case PLACEMENT_BOTTOM => "placement_bottom"
    case DESTROY_PLACEMENT => "destroy_placement"
    case SET_ANIM_PARAM => "set_animation_params"
    case GENERATE => "generate"
    case SHARE => "share_canvas"
    case BARRIER => "barrier"
  }

  lemma VerbIsKeyword(kind: TaskType)
    requires kind != HANDSHAKE
    ensures Keyword(kind) == Verb(kind) + [' '] && ' ' !in Verb(kind)
    ensures Verb(kind) != [] && Verb(kind)[0] != 'D'
  {
  }

  /** A request in words is queued as the task its first word names, with the other words as its request. */
  lemma WordsAreUnderstood(kind: TaskType, ws: seq<string>)
    requires kind != HANDSHAKE && ws != []
    ensures Meaning(Joined([Verb(kind)] + ws)) == if kind == AUTHORISE then Login(Joined(ws)) else Rpc(kind, Joined(ws))
  {
    VerbIsKeyword(kind);
    var words := [Verb(kind)] + ws;
    assert words[1..] == ws;
    var text := Joined(words);
    assert text == Keyword(kind) + Joined(ws);
    assert text[..|Keyword(kind)|] == Keyword(kind) && text[|Keyword(kind)|..] == Joined(ws);
    assert Selects(text, kind);
    MeaningOf(text, kind);
    assert kind == AUTHORISE ==> |Keyword(kind)| == 6;
  }

  /** A word of one piece selects no task: every keyword ends with a blank. */
  lemma WordSelectsNothing(text: string)
    requires ' ' !in text
    ensures forall kind :: !Selects(text, kind)
  {
    forall kind | kind != HANDSHAKE ensures !StartsWith(text, Keyword(kind)) {
      VerbIsKeyword(kind);
      var k := |Verb(kind)|;
      if k < |text| {
        assert text[..k + 1][k] == text[k];
      }
    }
  }

  /** A request's first word on its own is taken for nothing: the server waits for the blank behind it. */
  lemma BareVerbIsIgnored(kind: TaskType)
    requires kind != HANDSHAKE
    ensures Meaning(Verb(kind)) == Unknown
  {
    VerbIsKeyword(kind);
    WordSelectsNothing(Verb(kind));
    if |Verb(kind)| >= 10 {
      assert Verb(kind)[..10][0] == Verb(kind)[0];
    }
    NoMeaning(Verb(kind));
  }

  /**
   A request typed on a line that fits the input buffer, with whatever whitespace between and around its words, is read
   by the server as one record, and is taken for the task its first word names with the other words as its request.
   */
  lemma TypedRequestIsUnderstood(kind: TaskType, line: string, ws: seq<string>)
    requires kind != HANDSHAKE && ws != [] && Fits(line) && Words(line) == [Verb(kind)] + ws
    ensures var records := Records(Wire(Session(Typed([line]))));
            && |records| == 1
            && Meaning(records[0]) == if kind == AUTHORISE then Login(Joined(ws)) else Rpc(kind, Joined(ws))
  {
    LinesArrive([line]);
    WordsAreUnderstood(kind, ws);
    assert ([Verb(kind)] + ws)[1..] == ws;
    assert Clean(line) == Joined([Verb(kind)] + ws) == Verb(kind) + [' '] + Joined(ws);
    assert [line][1..] == [] && CleanLines([]) == [];
    assert Clean(line) != DISCONNECT && CleanLines([line]) == [Clean(line)];
  }
}
