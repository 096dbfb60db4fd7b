/** What a client reads on its terminal for each request it types: the whole way from the worker's checks to the message. */
module ReplyMessages {
  import opened Common
  import Fifo
  import Transport
  import opened Whitespace
  import opened ReplyCodec
  import opened Arguments
  import opened ObjectTable
  import opened WorkerTasks
  import opened WorkerReplies

  /** The message the client prints for the next reply on the wire, if one is there. */
  function Heard(wire: string): Option<Message> {
    match Fifo.TakeRecord(wire, '\n', Transport.ROOM)
    case None => None
    case Some((record, _)) => Some(Printed(Scan(Clean(CString(record)), 3)))
  }

  lemma HeardReply(t: Triple, rest: string)
    requires InRange(t)
    ensures Heard(Reply(t) + rest) == Some(Printed(Present(t)))
  {
    ReplyRoundTrip(t, rest);
  }

  /** The results the workers post, and the message each is heard as. */
  lemma HeardCode(t: Triple, rest: string)
    requires InRange(t)
    ensures t == Triple(-1, INT_MIN, INT_MIN) ==> Heard(Reply(t) + rest) == Some(RpcFailed)
    ensures t == Triple(-2, INT_MIN, INT_MIN) ==> Heard(Reply(t) + rest) == Some(ValueError)
    ensures t == Triple(-3, INT_MIN, INT_MIN) ==> Heard(Reply(t) + rest) == Some(InternalError)
    ensures t == Triple(0, INT_MIN, INT_MIN) || t == Triple(0, 0, 0) ==> Heard(Reply(t) + rest) == Some(Success)
    ensures t == Triple(0, -1, INT_MIN) ==> Heard(Reply(t) + rest) == Some(DataWriteFailed)
    ensures t == Triple(0, 0, -1) ==> Heard(Reply(t) + rest) == Some(MovieWriteFailed)
    ensures t == Triple(0, t.b, INT_MIN) && t.b !in {-1, INT_MIN} ==> Heard(Reply(t) + rest) == Some(SuccessWith(t.b))
  {
    HeardReply(t, rest);
  }

  /** Nobody with this name is logged in. */
  predicate NobodyIs(name: string, users: seq<User>) {
    forall i :: 0 <= i < |users| ==> users[i].loggedIn ==> users[i].username != name
  }

  /** The answer to a request whose arguments cannot be read, or that names an object that is not there. */
  lemma RefusedHeard<H, C>(kind: TaskType, request: string, client: C, t: Tables<H, C>, lib: Library<H>, users: seq<User>, full: bool,
                           rest: string)
    requires Tokenised(kind)
    requires var args := Parsed(kind, request); args.Args? ==> LookedUp(kind, args.values, t) == None
    ensures Heard(Reply(Answer(kind, Inspect(kind, request, t, lib, users, full), lib)) + rest) == Some(
              match Parsed(kind, request)
              case Malformed => RpcFailed
              case BadValue => ValueError
              case Args(_, _) => if kind == DESTROY_CANVAS || kind == DESTROY_SPRITE then RpcFailed else ValueError)
  {
    var f := Inspect(kind, request, t, lib, users, full);
    RefusedDecides(kind, client, t, lib, f);
    HeardCode(Answer(kind, f, lib), rest);
  }

  /** The answer to a request to make an object: on success, its number is the size of the table it went to. */
  lemma CreateHeard<H, C>(kind: TaskType, request: string, client: C, t: Tables<H, C>, lib: Library<H>, users: seq<User>, full: bool,
                          rest: string)
    requires Creates(kind) && Addressable(t)
    requires var args := Parsed(kind, request); args.Args? && LookedUp(kind, args.values, t).Some?
    ensures Heard(Reply(Answer(kind, Inspect(kind, request, t, lib, users, full), lib)) + rest) == Some(
              if lib.made.None? || full then InternalError
              else if kind == CREATE_CANVAS then SuccessWith(|t.canvases|)
              else if kind == PLACE_SPRITE then SuccessWith(|t.placements|)
              else SuccessWith(|t.sprites|))
  {
    var f := Inspect(kind, request, t, lib, users, full);
    CreateDecides(kind, client, t, lib, f);
    HeardCode(Answer(kind, f, lib), rest);
  }

  /** The answer to a request to share a canvas that is there. */
  lemma ShareHeard<H, C>(request: string, t: Tables<H, C>, lib: Library<H>, users: seq<User>, full: bool, rest: string)
    requires var args := Parsed(SHARE, request); args.Args? && LookedUp(SHARE, args.values, t).Some?
    ensures Heard(Reply(Answer(SHARE, Inspect(SHARE, request, t, lib, users, full), lib)) + rest) == Some(
              if NobodyIs(Parsed(SHARE, request).tokens[1], users) then ValueError
              else if !lib.shareRoom then InternalError
              else Success)
  {
    var f := Inspect(SHARE, request, t, lib, users, full);
    ShareDecides(f, lib);
    HeardCode(Answer(SHARE, f, lib), rest);
  }

  /**
   The answer to a request to change or destroy an object that is there. What destroying a sprite returns is printed
   after "Success", unless it is -1, which reads as a failed write, or the value that stands for none.
   */
  lemma ChangeHeard<H, C>(kind: TaskType, request: string, client: C, t: Tables<H, C>, lib: Library<H>, users: seq<User>, full: bool,
                          rest: string)
    requires Tokenised(kind) && !Creates(kind) && kind != SHARE && IsInt(lib.ret)
    requires var args := Parsed(kind, request); args.Args? && args.values != [] && LookedUp(kind, args.values, t).Some?
    ensures Heard(Reply(Answer(kind, Inspect(kind, request, t, lib, users, full), lib)) + rest) == Some(
              if kind != DESTROY_SPRITE || lib.ret == INT_MIN then Success
              else if lib.ret == -1 then DataWriteFailed
              else SuccessWith(lib.ret))
  {
    var f := Inspect(kind, request, t, lib, users, full);
    ClearDecides(kind, client, t, lib, f);
    HeardCode(Answer(kind, f, lib), rest);
  }

  /** The answer to a movie request, when its frame loop does not run over. */
  lemma MovieHeard<H, C>(request: string, t: Tables<H, C>, lib: Library<H>, users: seq<User>, full: bool, rest: string)
    ensures var movie := ParsedMovie(request);
            Heard(Reply(Answer(GENERATE, Inspect(GENERATE, request, t, lib, users, full), lib)) + rest) == Some(
              if movie.None? || !LiveAt(t.canvases, movie.value.canvas) then ValueError
              else if !lib.datOpens then DataWriteFailed
              else if !lib.frameBytes || !lib.frameBuffer then InternalError
              else if exists i :: movie.value.first <= i <= movie.value.last && !lib.frameWritten(i) then DataWriteFailed
              else if !lib.datCloses then DataWriteFailed
              else if !lib.encoded then MovieWriteFailed
              else Success)
  {
    var f := Inspect(GENERATE, request, t, lib, users, full);
    MovieDecides(f, lib);
    HeardCode(Answer(GENERATE, f, lib), rest);
  }
}
