/**
 The client cases of the worker's switch (server/src/threadpool.c): what each one reads from its request, which
 checks it makes in which order, which library calls it makes on which objects, what it does to the object tables,
 and what it posts. What the library calls answer and what the file system holds is the environment's.
 */
module WorkerTasks {
  import opened Common
  import opened Whitespace
  import opened ReplyCodec
  import opened Arguments
  import opened ObjectTable
  import opened UserFile

  const MAX_USERNAME_LEN: nat := 32

  /** What the calls a task makes are going to answer. */
  datatype Library<H> = Library(
    made: Option<H>,       // the call that makes an object
    ret: int,              // the call that destroys a sprite
    room: bool,            // there is memory for a larger table
    datOpens: bool,
    frameBytes: bool,      // the frame size is not zero
    frameBuffer: bool,     // the frame buffer can be allocated
    frameWritten: int -> bool,
    datCloses: bool,
    encoded: bool,         // ffmpeg succeeds
    shareRoom: bool,       // the canvas has room for one more share
    userFile: Option<string>)   // the text of the user file, if it can be opened

  /** A linked client as SHARE sees it. */
  datatype User = User(username: string, loggedIn: bool)

  /** A record posted to the result pipe; the login ones carry what the main loop needs of the account. */
  datatype Result = RpcDone(retval: Triple) | AuthOk(balance: int, username: string) | AuthNo | AuthUn

  /** A library call on existing objects, with the numbers of the request; or the end of an object that found no room. */
  datatype Call<H> = Operates(kind: TaskType, on: seq<H>, numbers: seq<int>) | Discards(handle: H)

  /** A worker's doings outside the tables: every result it has posted and every call it has made, in order. */
  class Worker<H> {
    var posts: seq<Result>
    var calls: seq<Call<H>>

    constructor ()
      ensures posts == [] && calls == []
    {
      posts, calls := [], [];
    }

    /** write_block_pipe on the result pipe. */
    method Post(r: Result)
      modifies this`posts
      ensures posts == old(posts) + [r]
    {
      posts := posts + [r];
    }

    method Perform(c: Call<H>)
      modifies this`calls
      ensures calls == old(calls) + [c]
    {
      calls := calls + [c];
    }
  }

  predicate Creates(kind: TaskType) {
    kind in {CREATE_CANVAS, CREATE_SPRITE, CREATE_RECTANGLE, CREATE_CIRCLE, PLACE_SPRITE}
  }

  /** The kinds whose arguments are tokens. */
  predicate Tokenised(kind: TaskType) {
    kind != HANDSHAKE && kind != AUTHORISE && kind != BARRIER && kind != GENERATE
  }

  // ---------------------------------------------------------------- what a task finds

  /** What the checks of one task find, from its request, the tables and the environment. */
  datatype Findings<H> = Findings(
    args: Arguments,
    movie: Option<Movie>,
    handles: Option<seq<H>>,   // the objects the lookups lead to, if all of them are there
    made: bool,
    id: int,                   // the id of the new object, negative when its table cannot grow
    target: bool)              // the user to share with is logged in
  {
    predicate Found() {
      handles.Some?
    }
  }

  /** The id leads to an object that has not been destroyed. */
  predicate LiveAt<H, C>(es: seq<Entry<H, C>>, id: int) {
    0 <= id < |es| && es[id].ptr.Some?
  }

  /** The object the id leads to. */
  function At<H, C>(es: seq<Entry<H, C>>, id: int): Option<H> {
    if 0 <= id < |es| then es[id].ptr else None
  }

  function One<H>(o: Option<H>): Option<seq<H>> {
    if o.Some? then Some([o.value]) else None
  }

  function Both<H>(o: Option<H>, p: Option<H>): Option<seq<H>> {
    if o.Some? && p.Some? then Some([o.value, p.value]) else None
  }

  /** The objects a case looks up, if all of them are there. Some ids are cut to 32 bits on the way. */
  function LookedUp<H, C>(kind: TaskType, values: seq<int>, t: Tables<H, C>): Option<seq<H>>
    requires |values| == |Format(kind)|
  {
    match kind
    case DESTROY_CANVAS => One(At(t.canvases, ToInt(values[0])))
    case DESTROY_SPRITE => One(At(t.sprites, values[0]))
    case PLACE_SPRITE => Both(At(t.canvases, ToInt(values[0])), At(t.sprites, ToInt(values[1])))
    case SHARE => One(At(t.canvases, values[0]))
    case PLACEMENT_UP => One(At(t.placements, values[0]))
    case PLACEMENT_DOWN => One(At(t.placements, values[0]))
    case PLACEMENT_TOP => One(At(t.placements, values[0]))
    case PLACEMENT_BOTTOM => One(At(t.placements, values[0]))
    case DESTROY_PLACEMENT => One(At(t.placements, values[0]))
    case SET_ANIM_PARAM => One(At(t.placements, ToInt(values[0])))
    case _ => Some([])
  }

  /** How many entries the table a task inserts into has. */
  function Size<H, C>(kind: TaskType, t: Tables<H, C>): nat {
    if kind == CREATE_CANVAS then |t.canvases| else if kind == PLACE_SPRITE then |t.placements| else |t.sprites|
  }

  predicate LoggedIn(users: seq<User>, name: string) {
    exists i :: 0 <= i < |users| && users[i].loggedIn && users[i].username == name
  }

  /** full: the table the task inserts into has to grow and cannot. */
  ghost function Inspect<H, C>(kind: TaskType, request: string, t: Tables<H, C>, lib: Library<H>, users: seq<User>,
                               full: bool): Findings<H>
  {
    var args, movie := Parsed(kind, request), ParsedMovie(request);
    Findings(
      args, movie,
      if kind == GENERATE then (if movie.Some? then One(At(t.canvases, movie.value.canvas)) else None)
      else if args.Args? then LookedUp(kind, args.values, t)
      else None,
      lib.made.Some?,
      if full then -1 else Size(kind, t),
      args.Args? && kind == SHARE && LoggedIn(users, args.tokens[1]))
  }

  // ---------------------------------------------------------------- the protocol, as a table

  function Code(a: int): Triple {
    Triple(a, INT_MIN, INT_MIN)
  }

  const MALFORMED := Code(-1)
  const NOT_FOUND := Code(-1)
  const BAD_VALUE := Code(-2)
  const INTERNAL := Code(-3)
  const NO_DATA := Triple(0, -1, INT_MIN)
  const NO_MOVIE := Triple(0, 0, -1)

  /** One check and the result posted when it fails. */
  datatype Check = Check(passes: bool, otherwise: Triple)

  /** Were all the frames of a request written? */
  ghost predicate FramesWritten<H>(movie: Movie, lib: Library<H>) {
    forall i :: movie.first <= i <= movie.last ==> lib.frameWritten(i)
  }

  /** The checks of a movie request, in order. */
  ghost function MovieChecks<H>(f: Findings<H>, lib: Library<H>): seq<Check> {
    [Check(f.movie.Some?, BAD_VALUE), Check(f.Found(), BAD_VALUE), Check(lib.datOpens, NO_DATA), Check(lib.frameBytes, INTERNAL),
     Check(lib.frameBuffer, INTERNAL), Check(f.movie.Some? && FramesWritten(f.movie.value, lib), NO_DATA),
     Check(lib.datCloses, NO_DATA), Check(lib.encoded, NO_MOVIE)]
  }

  /** What the other kinds of task check once their arguments are read, in order. */
  ghost function ObjectChecks<H>(kind: TaskType, f: Findings<H>, lib: Library<H>): seq<Check> {
    match kind
    case PLACE_SPRITE => [Check(f.Found(), BAD_VALUE), Check(f.made, INTERNAL), Check(f.id >= 0, INTERNAL)]
    case DESTROY_CANVAS => [Check(f.Found(), NOT_FOUND)]
    case DESTROY_SPRITE => [Check(f.Found(), NOT_FOUND)]
    case SHARE => [Check(f.Found(), BAD_VALUE), Check(f.target, BAD_VALUE), Check(lib.shareRoom, INTERNAL)]
    case _ => if Creates(kind) then [Check(f.made, INTERNAL), Check(f.id >= 0, INTERNAL)] else [Check(f.Found(), BAD_VALUE)]
  }

  /** The checks of each kind of task, in order. */
  ghost function Checks<H>(kind: TaskType, f: Findings<H>, lib: Library<H>): seq<Check> {
    if kind == GENERATE then MovieChecks(f, lib)
    else [Check(f.args != Malformed, MALFORMED), Check(f.args.Args?, BAD_VALUE)] + ObjectChecks(kind, f, lib)
  }

  /** The result when every check passes. */
  function Success<H>(kind: TaskType, f: Findings<H>, lib: Library<H>): Triple {
    if Creates(kind) then Triple(0, f.id, INT_MIN)
    else if kind == DESTROY_SPRITE then Triple(0, lib.ret, INT_MIN)
    else if kind == GENERATE then Triple(0, 0, 0)
    else Code(0)
  }

  ghost predicate AllPass(checks: seq<Check>) {
    forall i :: 0 <= i < |checks| ==> checks[i].passes
  }

  /** The result of the first check that fails, or the success value. */
  ghost function Verdict(checks: seq<Check>, success: Triple): Triple {
    if checks == [] then success
    else if !checks[0].passes then checks[0].otherwise
    else Verdict(checks[1..], success)
  }

  /** The reply to a task with these findings. */
  ghost function Answer<H>(kind: TaskType, f: Findings<H>, lib: Library<H>): Triple {
    Verdict(Checks(kind, f, lib), Success(kind, f, lib))
  }

  /** The account of the user a login request names. */
  function AccountFor<H>(request: string, lib: Library<H>): Account {
    AccountOf(lib.userFile, CString(request))
  }

  /** What a login finds out. */
  function Login(request: string, account: Account): Result {
    match account
    case Solvent(balance) => AuthOk(balance, Copied(request, MAX_USERNAME_LEN))
    case Broke => AuthNo
    case Unlisted => AuthUn
  }

  /**
   The frame loop's int index runs past the largest int: the last frame asked for is that one, and every frame
   was written. What the program does then is undefined.
   */
  ghost predicate Overruns<H>(kind: TaskType, f: Findings<H>, lib: Library<H>) {
    && kind == GENERATE && f.movie.Some? && f.Found() && lib.datOpens && lib.frameBytes && lib.frameBuffer
    && f.movie.value.last == INT_MAX && FramesWritten(f.movie.value, lib)
  }

  /** What a task posts when it gets to its end: nothing for a barrier, one result for any other. */
  ghost function Posts<H>(kind: TaskType, request: string, f: Findings<H>, lib: Library<H>): seq<Result> {
    if kind == BARRIER then []
    else if kind == AUTHORISE then [Login(request, AccountFor(request, lib))]
    else [RpcDone(Answer(kind, f, lib))]
  }

  /** The calls a task makes on the objects it has looked up, and on one it has made and cannot store. */
  ghost function Calls<H>(kind: TaskType, f: Findings<H>, lib: Library<H>): seq<Call<H>> {
    if !Tokenised(kind) || kind == SHARE || !f.args.Args? || !f.Found() then []
    else [Operates(kind, f.handles.value, f.args.values)]
         + if Creates(kind) && lib.made.Some? && f.id < 0 then [Discards(lib.made.value)] else []
  }

  /** The tables with the object a task makes. */
  function Stored<H(==), C(==)>(kind: TaskType, t: Tables<H, C>, handle: H, client: C): Tables<H, C> {
    if kind == CREATE_CANVAS then t.(canvases := After(t.canvases, Inserts(handle, client)))
    else if kind == PLACE_SPRITE then t.(placements := After(t.placements, Inserts(handle, client)))
    else t.(sprites := After(t.sprites, Inserts(handle, client)))
  }

  /** The tables without the object a task destroys. */
  function Cleared<H(==), C(==)>(kind: TaskType, t: Tables<H, C>, id: int): Tables<H, C> {
    if kind == DESTROY_CANVAS then t.(canvases := After(t.canvases, Removes(ToInt(id))))
    else if kind == DESTROY_SPRITE then t.(sprites := After(t.sprites, Removes(id)))
    else if kind == DESTROY_PLACEMENT then t.(placements := After(t.placements, Removes(id)))
    else t
  }

  /** The tables after a task: changed only when every check passed, and then in one table by one call. */
  ghost function TablesAfter<H, C>(kind: TaskType, client: C, t: Tables<H, C>, f: Findings<H>, lib: Library<H>): Tables<H, C> {
    if !Tokenised(kind) || !AllPass(Checks(kind, f, lib)) then t
    else if Creates(kind) && lib.made.Some? then Stored(kind, t, lib.made.value, client)
    else if f.args.Args? && f.args.values != [] then Cleared(kind, t, f.args.values[0])
    else t
  }

  /** A task loses a table: it reaches an insert that has to grow a table which is not empty, and there is no memory. */
  ghost predicate Loses<H, C>(kind: TaskType, t: Tables<H, C>, f: Findings<H>) {
    Creates(kind) && f.args.Args? && f.Found() && f.made && f.id < 0 && Size(kind, t) > 0
  }

  /** What a task leaves of the tables: a fault when it loses one. */
  ghost function TablesLeft<H, C>(kind: TaskType, client: C, t: Tables<H, C>, f: Findings<H>, lib: Library<H>): Outcome<Tables<H, C>> {
    if Loses(kind, t, f) then Fault else Fine(TablesAfter(kind, client, t, f, lib))
  }

  /** The tables are as this says: all usable with these contents, or not all usable. */
  ghost predicate AreLeft<H(!new), C>(objects: Objects<H, C>, left: Outcome<Tables<H, C>>)
    reads objects.canvases, objects.sprites, objects.placements
    reads objects.canvases.arr, objects.sprites.arr, objects.placements.arr
  {
    match left
    case Fine(t) => objects.Valid() && objects.Contents() == t
    case Fault => !objects.Valid()
  }

  // ---------------------------------------------------------------- which check decides

  /** The first failing check decides. */
  lemma {:induction false} VerdictAt(checks: seq<Check>, success: Triple, i: nat)
    requires i < |checks| && !checks[i].passes
    requires forall j :: 0 <= j < i ==> checks[j].passes
    ensures Verdict(checks, success) == checks[i].otherwise
  {
    if i > 0 {
      assert forall j :: 0 <= j < i - 1 ==> checks[1..][j] == checks[j + 1];
      VerdictAt(checks[1..], success, i - 1);
    }
  }

  /** No failing check: the success value. */
  lemma {:induction false} VerdictWhenAllPass(checks: seq<Check>, success: Triple)
    requires AllPass(checks)
    ensures Verdict(checks, success) == success
  {
    if checks != [] {
      VerdictWhenAllPass(checks[1..], success);
    }
  }

  /** The reply to a task, in one step: decided by the check at `i`, or a success when `i` is past the last check. */
  lemma Decides<H>(kind: TaskType, f: Findings<H>, lib: Library<H>, i: nat)
    requires i <= |Checks(kind, f, lib)|
    requires forall j :: 0 <= j < i ==> Checks(kind, f, lib)[j].passes
    requires i < |Checks(kind, f, lib)| ==> !Checks(kind, f, lib)[i].passes
    ensures Answer(kind, f, lib) == if i < |Checks(kind, f, lib)| then Checks(kind, f, lib)[i].otherwise else Success(kind, f, lib)
    ensures AllPass(Checks(kind, f, lib)) <==> i == |Checks(kind, f, lib)|
  {
    if i < |Checks(kind, f, lib)| {
      VerdictAt(Checks(kind, f, lib), Success(kind, f, lib), i);
    } else {
      VerdictWhenAllPass(Checks(kind, f, lib), Success(kind, f, lib));
    }
  }

  /** The position of the first failing check, or the number of checks. */
  ghost function FirstFailing(checks: seq<Check>): (i: nat)
    ensures i <= |checks| && (i < |checks| ==> !checks[i].passes)
    ensures forall j :: 0 <= j < i ==> checks[j].passes
  {
    if checks == [] || !checks[0].passes then 0 else 1 + FirstFailing(checks[1..])
  }

  /** How a movie request ends, once its frame buffer is there and its loop does not run over. */
  lemma MovieDecides<H>(f: Findings<H>, lib: Library<H>)
    ensures f.movie.None? || !f.Found() ==> Answer(GENERATE, f, lib) == BAD_VALUE
    ensures f.movie.Some? && f.Found() && !lib.datOpens ==> Answer(GENERATE, f, lib) == NO_DATA
    ensures f.movie.Some? && f.Found() && lib.datOpens && !(lib.frameBytes && lib.frameBuffer) ==> Answer(GENERATE, f, lib) == INTERNAL
    ensures f.movie.Some? && f.Found() && lib.datOpens && lib.frameBytes && lib.frameBuffer ==>
              Answer(GENERATE, f, lib) == if !FramesWritten(f.movie.value, lib) || !lib.datCloses then NO_DATA
                                          else if !lib.encoded then NO_MOVIE else Triple(0, 0, 0)
  {
    var checks := MovieChecks(f, lib);
    var i := FirstFailing(checks);
    Decides(GENERATE, f, lib, i);
    assert i in {0, 1, 2, 3, 4, 5, 6, 7, 8};
    assert i > 0 ==> checks[0].passes;
    assert i > 1 ==> checks[1].passes;
    assert i > 2 ==> checks[2].passes;
    assert i > 3 ==> checks[3].passes;
    assert i > 4 ==> checks[4].passes;
    assert i > 5 ==> checks[5].passes;
    assert i > 6 ==> checks[6].passes;
    assert i > 7 ==> checks[7].passes;
  }

  // ---------------------------------------------------------------- the cases

  /** SHARE's walk along the list of clients. */
  method FindUser(users: seq<User>, name: string) returns (i: nat)
    ensures i <= |users| && (i < |users| <==> LoggedIn(users, name))
    ensures i < |users| ==> users[i].loggedIn && users[i].username == name
    ensures forall j :: 0 <= j < i ==> !(users[j].loggedIn && users[j].username == name)
  {
    i := 0;
    while i < |users|
      invariant i <= |users| && forall j :: 0 <= j < i ==> !(users[j].loggedIn && users[j].username == name)
    {
      if users[i].loggedIn && users[i].username == name {
        return;
      }
      i := i + 1;
    }
  }

  /** A lookup and the test of the entry's pointer. */
  method Find<H(!new, ==), C(==)>(table: Table<H, C>, id: int) returns (handle: Option<H>)
    requires table.Valid()
    ensures handle == At(table.Entries(), id)
  {
    var entry := table.Lookup(id);
    handle := if entry.Some? then entry.value.ptr else None;
  }

  /** How the frame loop ends. */
  datatype LoopEnd = Completed | Left | Overrun

  /** The frame loop. At the first frame that is not written it posts the result itself and leaves the whole case. */
  method WriteFrames<H>(movie: Movie, lib: Library<H>, w: Worker<H>) returns (end: LoopEnd)
    requires movie.first <= movie.last <= INT_MAX
    modifies w`posts
    ensures end == if !FramesWritten(movie, lib) then Left else if movie.last == INT_MAX then Overrun else Completed
    ensures w.posts == old(w.posts) + if end == Left then [RpcDone(NO_DATA)] else []
  {
    var i := movie.first;
    while i <= movie.last
      invariant i <= INT_MAX && forall j :: movie.first <= j < i ==> lib.frameWritten(j)
      invariant w.posts == old(w.posts)
      decreases movie.last - i
    {
      if !lib.frameWritten(i) {
        w.Post(RpcDone(NO_DATA));
        return Left;
      }
      if i == INT_MAX {
        return Overrun;
      }
      i := i + 1;
    }
    end := Completed;
  }

  /** GENERATE: the request, the canvas and the files. Each way out posts its own result. */
  method Generate<H(!new, ==), C(==)>(ghost f: Findings<H>, movie: Option<Movie>, lib: Library<H>, canvases: Table<H, C>, w: Worker<H>)
    returns (overrun: bool)
    requires canvases.Valid() && f.movie == movie && (movie.Some? ==> movie.value.first <= movie.value.last <= INT_MAX)
    requires f.Found() <==> f.movie.Some? && At(canvases.Entries(), f.movie.value.canvas).Some?
    modifies w`posts
    ensures overrun <==> Overruns(GENERATE, f, lib)
    ensures w.posts == old(w.posts) + if overrun then [] else [RpcDone(Answer(GENERATE, f, lib))]
  {
    MovieDecides(f, lib);
    overrun := false;
    if movie.None? {
      w.Post(RpcDone(BAD_VALUE));
      return;
    }
    var canvas := Find(canvases, movie.value.canvas);
    if canvas.None? {
      w.Post(RpcDone(BAD_VALUE));
      return;
    }
    if !lib.datOpens {
      w.Post(RpcDone(NO_DATA));
      return;
    }
    if !lib.frameBytes {
      w.Post(RpcDone(INTERNAL));
      return;
    }
    if !lib.frameBuffer {
      w.Post(RpcDone(INTERNAL));
      return;
    }
    overrun := Render(f, movie.value, lib, w);
  }

  /** GENERATE: the frames and what follows them. */
  method Render<H>(ghost f: Findings<H>, movie: Movie, lib: Library<H>, w: Worker<H>) returns (overrun: bool)
    requires f.movie == Some(movie) && movie.first <= movie.last <= INT_MAX
    requires f.Found() && lib.datOpens && lib.frameBytes && lib.frameBuffer
    modifies w`posts
    ensures overrun <==> Overruns(GENERATE, f, lib)
    ensures w.posts == old(w.posts) + if overrun then [] else [RpcDone(Answer(GENERATE, f, lib))]
  {
    MovieDecides(f, lib);
    var end := WriteFrames(movie, lib, w);
    overrun := end == Overrun;
    if overrun {
      return;
    }
    if end == Left {
      return;
    }
    if !lib.datCloses {
      w.Post(RpcDone(NO_DATA));
      return;
    }
    if !lib.encoded {
      w.Post(RpcDone(NO_MOVIE));
      return;
    }
    w.Post(RpcDone(Triple(0, 0, 0)));
  }

  /** The table a task inserts into has to grow and cannot. */
  ghost predicate Full<H(!new), C>(kind: TaskType, objects: Objects<H, C>, room: bool)
    reads objects.canvases, objects.sprites, objects.placements
  {
    if kind == CREATE_CANVAS then objects.canvases.Exhausted(room)
    else if kind == PLACE_SPRITE then objects.placements.Exhausted(room)
    else objects.sprites.Exhausted(room)
  }

  /** The insert of the object a task has made. */
  method Store<H(!new, ==), C(==)>(kind: TaskType, handle: H, client: C, objects: Objects<H, C>, room: bool,
                                   ghost t: Tables<H, C>, ghost full: bool)
    returns (id: int)
    requires objects.Valid() && t == objects.Contents() && full == Full(kind, objects, room)
    modifies objects.canvases, objects.sprites, objects.placements
    modifies objects.canvases.arr, objects.sprites.arr, objects.placements.arr
    ensures id == if full then -1 else Size(kind, t)
    ensures AreLeft(objects, if full && Size(kind, t) > 0 then Fault else Fine(if full then t else Stored(kind, t, handle, client)))
    ensures objects.Regrown()
  {
    if kind == CREATE_CANVAS {
      id := objects.InsertCanvas(handle, client, room);
    } else if kind == PLACE_SPRITE {
      id := objects.InsertPlacement(handle, client, room);
    } else {
      id := objects.InsertSprite(handle, client, room);
    }
  }

  /** The removal of the object a task destroys. */
  method Clear<H(!new, ==), C(==)>(kind: TaskType, id: int, objects: Objects<H, C>, ghost t: Tables<H, C>)
    requires objects.Valid() && t == objects.Contents()
    modifies objects.canvases, objects.sprites, objects.placements
    modifies objects.canvases.arr, objects.sprites.arr, objects.placements.arr
    ensures AreLeft(objects, Fine(Cleared(kind, t, id)))
    ensures objects.Regrown()
  {
    if kind == DESTROY_CANVAS {
      objects.RemoveCanvas(ToInt(id));
    } else if kind == DESTROY_SPRITE {
      objects.RemoveSprite(id);
    } else if kind == DESTROY_PLACEMENT {
      objects.RemovePlacement(id);
    }
    assert objects.Contents().canvases == Cleared(kind, t, id).canvases;
    assert objects.Contents().sprites == Cleared(kind, t, id).sprites;
  }

  /** The lookups of the objects a request names. */
  method LookUp<H(!new, ==), C(==)>(kind: TaskType, values: seq<int>, objects: Objects<H, C>) returns (handles: Option<seq<H>>)
    requires objects.Valid() && |values| == |Format(kind)|
    ensures handles == LookedUp(kind, values, objects.Contents())
  {
    var o, p: Option<H>;
    match kind
    case DESTROY_CANVAS => o := Find(objects.canvases, ToInt(values[0])); handles := One(o);
    case DESTROY_SPRITE => o := Find(objects.sprites, values[0]); handles := One(o);
    case PLACE_SPRITE =>
      o := Find(objects.canvases, ToInt(values[0]));
      p := Find(objects.sprites, ToInt(values[1]));
      handles := Both(o, p);
    case SHARE => o := Find(objects.canvases, values[0]); handles := One(o);
    case PLACEMENT_UP => o := Find(objects.placements, values[0]); handles := One(o);
    case PLACEMENT_DOWN => o := Find(objects.placements, values[0]); handles := One(o);
    case PLACEMENT_TOP => o := Find(objects.placements, values[0]); handles := One(o);
    case PLACEMENT_BOTTOM => o := Find(objects.placements, values[0]); handles := One(o);
    case DESTROY_PLACEMENT => o := Find(objects.placements, values[0]); handles := One(o);
    case SET_ANIM_PARAM => o := Find(objects.placements, ToInt(values[0])); handles := One(o);
    case _ => handles := Some([]);
  }

  /** How a task that makes an object ends, once its arguments are read and the objects it names are found. */
  lemma CreateDecides<H, C>(kind: TaskType, client: C, t: Tables<H, C>, lib: Library<H>, f: Findings<H>)
    requires Creates(kind) && f.args.Args? && f.Found() && f.made == lib.made.Some?
    ensures Answer(kind, f, lib) == if !f.made || f.id < 0 then INTERNAL else Triple(0, f.id, INT_MIN)
    ensures TablesLeft(kind, client, t, f, lib) ==
            if f.made && f.id < 0 && Size(kind, t) > 0 then Fault
            else Fine(if !f.made || f.id < 0 then t else Stored(kind, t, lib.made.value, client))
    ensures Calls(kind, f, lib) ==
            [Operates(kind, f.handles.value, f.args.values)] + if f.made && f.id < 0 then [Discards(lib.made.value)] else []
  {
    var last := |Checks(kind, f, lib)| - 1;
    Decides(kind, f, lib, if !f.made then last - 1 else if f.id < 0 then last else last + 1);
  }

  /** The object that was made is stored, or destroyed again when there is no room for it. */
  method Keep<H(!new, ==), C(==)>(kind: TaskType, handle: H, client: C, objects: Objects<H, C>, room: bool, w: Worker<H>,
                                  ghost t: Tables<H, C>, ghost full: bool)
    requires objects.Valid() && t == objects.Contents() && full == Full(kind, objects, room)
    modifies w, objects.canvases, objects.sprites, objects.placements
    modifies objects.canvases.arr, objects.sprites.arr, objects.placements.arr
    ensures w.posts == old(w.posts) + [RpcDone(if full then INTERNAL else Triple(0, Size(kind, t), INT_MIN))]
    ensures w.calls == old(w.calls) + if full then [Discards(handle)] else []
    ensures AreLeft(objects, if full && Size(kind, t) > 0 then Fault else Fine(if full then t else Stored(kind, t, handle, client)))
    ensures objects.Regrown()
  {
    var id := Store(kind, handle, client, objects, room, t, full);
    if id < 0 {
      w.Perform(Discards(handle));
      w.Post(RpcDone(INTERNAL));
      return;
    }
    w.Post(RpcDone(Triple(0, id, INT_MIN)));
  }

  /** The end of a case that makes an object: a failed call or a full table is an internal error. */
  method Create<H(!new, ==), C(==)>(kind: TaskType, numbers: seq<int>, handles: seq<H>, client: C, objects: Objects<H, C>, lib: Library<H>,
                                    w: Worker<H>, ghost t: Tables<H, C>, ghost full: bool)
    requires objects.Valid() && t == objects.Contents() && full == Full(kind, objects, lib.room)
    modifies w, objects.canvases, objects.sprites, objects.placements
    modifies objects.canvases.arr, objects.sprites.arr, objects.placements.arr
    ensures w.posts == old(w.posts) + [RpcDone(if lib.made.None? || full then INTERNAL else Triple(0, Size(kind, t), INT_MIN))]
    ensures w.calls == old(w.calls) + ([Operates(kind, handles, numbers)]
                                       + if lib.made.Some? && full then [Discards(lib.made.value)] else [])
    ensures AreLeft(objects, if lib.made.Some? && full && Size(kind, t) > 0 then Fault
                             else Fine(if lib.made.None? || full then t else Stored(kind, t, lib.made.value, client)))
    ensures objects.Regrown()
  {
    w.Perform(Operates(kind, handles, numbers));
    if lib.made.None? {
      w.Post(RpcDone(INTERNAL));
      return;
    }
    Keep(kind, lib.made.value, client, objects, lib.room, w, t, full);
  }

  /** The end of a case that destroys an object or changes a placement. */
  method Change<H(!new, ==), C(==)>(kind: TaskType, numbers: seq<int>, handles: seq<H>, objects: Objects<H, C>, lib: Library<H>,
                                    w: Worker<H>, ghost t: Tables<H, C>)
    requires objects.Valid() && t == objects.Contents() && numbers != []
    modifies w, objects.canvases, objects.sprites, objects.placements
    modifies objects.canvases.arr, objects.sprites.arr, objects.placements.arr
    ensures w.posts == old(w.posts) + [RpcDone(if kind == DESTROY_SPRITE then Triple(0, lib.ret, INT_MIN) else Code(0))]
    ensures w.calls == old(w.calls) + [Operates(kind, handles, numbers)]
    ensures AreLeft(objects, Fine(Cleared(kind, t, numbers[0])))
    ensures objects.Regrown()
  {
    w.Perform(Operates(kind, handles, numbers));
    Clear(kind, numbers[0], objects, t);
    w.Post(RpcDone(if kind == DESTROY_SPRITE then Triple(0, lib.ret, INT_MIN) else Code(0)));
  }

  /** How SHARE ends, once the canvas is found. */
  lemma ShareDecides<H>(f: Findings<H>, lib: Library<H>)
    requires f.args.Args? && f.Found()
    ensures Answer(SHARE, f, lib) == if !f.target then BAD_VALUE else if !lib.shareRoom then INTERNAL else Code(0)
  {
    Decides(SHARE, f, lib, if !f.target then 3 else if !lib.shareRoom then 4 else 5);
  }

  /** SHARE, once the canvas is found. */
  method Share<H>(users: seq<User>, ghost f: Findings<H>, tokens: seq<string>, lib: Library<H>, w: Worker<H>)
    requires f.args.Args? && f.Found() && |tokens| == 2 && f.target == LoggedIn(users, tokens[1])
    modifies w`posts
    ensures w.posts == old(w.posts) + [RpcDone(Answer(SHARE, f, lib))]
  {
    ShareDecides(f, lib);
    var i := FindUser(users, tokens[1]);
    if i == |users| {
      w.Post(RpcDone(BAD_VALUE));
      return;
    }
    if !lib.shareRoom {
      w.Post(RpcDone(INTERNAL));
      return;
    }
    w.Post(RpcDone(Code(0)));
  }

  /** How a task ends whose arguments cannot be read, or name an object that is not there. */
  lemma RefusedDecides<H, C>(kind: TaskType, client: C, t: Tables<H, C>, lib: Library<H>, f: Findings<H>)
    requires Tokenised(kind) && !(f.args.Args? && f.Found()) && (Creates(kind) && kind != PLACE_SPRITE && f.args.Args? ==> f.Found())
    ensures Answer(kind, f, lib) == if f.args.Malformed? then MALFORMED
                                   else if f.args.Args? && (kind == DESTROY_CANVAS || kind == DESTROY_SPRITE) then NOT_FOUND
                                   else BAD_VALUE
    ensures TablesLeft(kind, client, t, f, lib) == Fine(t) && Calls(kind, f, lib) == []
  {
    Decides(kind, f, lib, if f.args.Malformed? then 0 else if f.args.BadValue? then 1 else 2);
  }

  /** How a task ends that changes or destroys one object, once that is found. */
  lemma ClearDecides<H, C>(kind: TaskType, client: C, t: Tables<H, C>, lib: Library<H>, f: Findings<H>)
    requires Tokenised(kind) && !Creates(kind) && kind != SHARE && f.args.Args? && f.Found() && f.args.values != []
    ensures Answer(kind, f, lib) == if kind == DESTROY_SPRITE then Triple(0, lib.ret, INT_MIN) else Code(0)
    ensures TablesLeft(kind, client, t, f, lib) == Fine(Cleared(kind, t, f.args.values[0]))
    ensures Calls(kind, f, lib) == [Operates(kind, f.handles.value, f.args.values)]
  {
    Decides(kind, f, lib, 3);
  }

  /** The findings are those of this request, these tables and these users. */
  ghost predicate Finds<H, C>(kind: TaskType, args: Arguments, t: Tables<H, C>, lib: Library<H>, users: seq<User>, full: bool,
                              f: Findings<H>)
  {
    && f.args == args && f.made == lib.made.Some? && f.id == (if full then -1 else Size(kind, t))
    && (args.Args? ==> |args.values| == |args.tokens| == |Format(kind)|)
    && f.handles == (if args.Args? then LookedUp(kind, args.values, t) else None)
    && (f.target <==> args.Args? && kind == SHARE && LoggedIn(users, args.tokens[1]))
  }

  /** The cases whose arguments are tokens: read them, look the named objects up, and act. Each way out posts its own result. */
  method ServeObjects<H(!new, ==), C(==)>(kind: TaskType, args: Arguments, client: C, objects: Objects<H, C>, lib: Library<H>,
                                          users: seq<User>, w: Worker<H>, ghost t: Tables<H, C>, ghost f: Findings<H>)
    requires objects.Valid() && t == objects.Contents() && Tokenised(kind)
    requires Finds(kind, args, t, lib, users, Full(kind, objects, lib.room), f)
    modifies w, objects.canvases, objects.sprites, objects.placements
    modifies objects.canvases.arr, objects.sprites.arr, objects.placements.arr
    ensures w.posts == old(w.posts) + [RpcDone(Answer(kind, f, lib))] && w.calls == old(w.calls) + Calls(kind, f, lib)
    ensures AreLeft(objects, TablesLeft(kind, client, t, f, lib))
    ensures objects.Regrown()
  {
    if !f.Found() {
      RefusedDecides(kind, client, t, lib, f);
    }
    if args.Malformed? {
      w.Post(RpcDone(MALFORMED));
      return;
    }
    if args.BadValue? {
      w.Post(RpcDone(BAD_VALUE));
      return;
    }
    var handles := LookUp(kind, args.values, objects);
    if handles.None? {
      w.Post(RpcDone(if kind == DESTROY_CANVAS || kind == DESTROY_SPRITE then NOT_FOUND else BAD_VALUE));
      return;
    }
    Act(kind, args, handles.value, client, objects, lib, users, w, t, f);
  }

  /** SHARE changes no table. */
  lemma ShareKeepsTables<H, C>(client: C, t: Tables<H, C>, lib: Library<H>, f: Findings<H>)
    ensures TablesLeft(SHARE, client, t, f, lib) == Fine(t) && Calls(SHARE, f, lib) == []
  {
  }

  /** The same cases, once every object they name is found. */
  method Act<H(!new, ==), C(==)>(kind: TaskType, args: Arguments, handles: seq<H>, client: C, objects: Objects<H, C>, lib: Library<H>,
                                 users: seq<User>, w: Worker<H>, ghost t: Tables<H, C>, ghost f: Findings<H>)
    requires objects.Valid() && t == objects.Contents() && Tokenised(kind) && args.Args? && f.handles == Some(handles)
    requires Finds(kind, args, t, lib, users, Full(kind, objects, lib.room), f)
    modifies w, objects.canvases, objects.sprites, objects.placements
    modifies objects.canvases.arr, objects.sprites.arr, objects.placements.arr
    ensures w.posts == old(w.posts) + [RpcDone(Answer(kind, f, lib))] && w.calls == old(w.calls) + Calls(kind, f, lib)
    ensures AreLeft(objects, TablesLeft(kind, client, t, f, lib))
    ensures objects.Regrown()
  {
    if Creates(kind) {
      CreateDecides(kind, client, t, lib, f);
      ghost var full := Full(kind, objects, lib.room);
      Create(kind, args.values, handles, client, objects, lib, w, t, full);
      return;
    }
    if kind == SHARE {
      ShareKeepsTables(client, t, lib, f);
      Share(users, f, args.tokens, lib, w);
      return;
    }
    ClearDecides(kind, client, t, lib, f);
    Change(kind, args.values, handles, objects, lib, w, t);
  }

  /** A login is answered by the account alone: who has money is let in, under the first 31 characters of the name. */
  ghost predicate Judged(r: Result, request: string, account: Account) {
    && (r.AuthOk? <==> account.Solvent?)
    && (r.AuthNo? <==> account.Broke?)
    && (r.AuthUn? <==> account.Unlisted?)
    && (r.AuthOk? ==> r.balance == account.balance)
    && (r.AuthOk? ==> r.username == var name := CString(request); if |name| <= 31 then name else name[..31])
  }

  /** AUTHORISE: the look-up in the user file, and its verdict. */
  method Authorise<H>(request: string, lib: Library<H>, w: Worker<H>)
    modifies w`posts
    ensures w.posts == old(w.posts) + [Login(request, AccountFor(request, lib))]
    ensures Judged(w.posts[|old(w.posts)|], request, AccountFor(request, lib))
  {
    var account := GetBalance(lib.userFile, CString(request));
    w.Post(Login(request, account));
  }

  /** The kinds that touch no table and no object. */
  lemma OthersKeepTables<H, C>(kind: TaskType, client: C, t: Tables<H, C>, lib: Library<H>, f: Findings<H>)
    requires !Tokenised(kind)
    ensures TablesLeft(kind, client, t, f, lib) == Fine(t) && Calls(kind, f, lib) == []
  {
  }

  /** AUTHORISE, GENERATE and BARRIER. */
  method ServeOthers<H(!new, ==), C(==)>(kind: TaskType, request: string, canvases: Table<H, C>, lib: Library<H>, w: Worker<H>,
                                         ghost f: Findings<H>)
    returns (overrun: bool)
    requires canvases.Valid() && !Tokenised(kind) && kind != HANDSHAKE && f.movie == ParsedMovie(request)
    requires kind == GENERATE ==> (f.Found() <==> f.movie.Some? && At(canvases.Entries(), f.movie.value.canvas).Some?)
    modifies w`posts
    ensures overrun == Overruns(kind, f, lib)
    ensures w.posts == old(w.posts) + if overrun then [] else Posts(kind, request, f, lib)
    ensures kind == AUTHORISE ==> |w.posts| == |old(w.posts)| + 1 && Judged(w.posts[|old(w.posts)|], request, AccountFor(request, lib))
  {
    overrun := false;
    if kind == BARRIER {
      return;
    }
    if kind == AUTHORISE {
      Authorise(request, lib, w);
      return;
    }
    overrun := Generate(f, ParsedMovie(request), lib, canvases, w);
  }

  /**
   The switch for a client's task. On every way out but an overrun of the frame loop it has posted exactly one result,
   none for a barrier; which one, which calls it has made, and what it leaves of the tables, is told by the request, the
   tables and the environment's answers.
   */
  method Serve<H(!new, ==), C(==)>(kind: TaskType, request: string, client: C, objects: Objects<H, C>, lib: Library<H>, users: seq<User>,
                                   w: Worker<H>, ghost t: Tables<H, C>, ghost full: bool)
    returns (overrun: bool)
    requires objects.Valid() && t == objects.Contents() && full == Full(kind, objects, lib.room) && kind != HANDSHAKE
    modifies w, objects.canvases, objects.sprites, objects.placements
    modifies objects.canvases.arr, objects.sprites.arr, objects.placements.arr
    ensures var f := Inspect(kind, request, t, lib, users, full);
            && overrun == Overruns(kind, f, lib)
            && w.posts == old(w.posts) + (if overrun then [] else Posts(kind, request, f, lib))
            && w.calls == old(w.calls) + Calls(kind, f, lib)
            && AreLeft(objects, TablesLeft(kind, client, t, f, lib))
    ensures kind == AUTHORISE ==> |w.posts| == |old(w.posts)| + 1 && Judged(w.posts[|old(w.posts)|], request, AccountFor(request, lib))
    ensures objects.Regrown()
  {
    ghost var f := Inspect(kind, request, t, lib, users, full);
    if !Tokenised(kind) {
      OthersKeepTables(kind, client, t, lib, f);
      overrun := ServeOthers(kind, request, objects.canvases, lib, w, f);
      return;
    }
    ServeObjects(kind, Parsed(kind, request), client, objects, lib, users, w, t, f);
    overrun := false;
  }

  // ---------------------------------------------------------------- one task after another

  /** A task a worker takes, with what the calls it makes are going to answer. */
  datatype Job<H, C> = Job(kind: TaskType, request: string, client: C, lib: Library<H>, users: seq<User>)

  /** What the tasks of a run come to: the results posted, the library calls made, and the tables left. */
  datatype Doings<H, C> = Doings(posts: seq<Result>, calls: seq<Call<H>>, tables: Tables<H, C>)

  /** One more task, when there is memory for larger tables. */
  ghost function OneMore<H, C>(d: Doings<H, C>, job: Job<H, C>): Doings<H, C> {
    var f := Inspect(job.kind, job.request, d.tables, job.lib, job.users, false);
    Doings(d.posts + Posts(job.kind, job.request, f, job.lib), d.calls + Calls(job.kind, f, job.lib),
           TablesAfter(job.kind, job.client, d.tables, f, job.lib))
  }

  /** These tasks one after another, each on the tables that the ones before it have left. */
  ghost function AllDone<H, C>(d: Doings<H, C>, jobs: seq<Job<H, C>>): Doings<H, C> {
    if jobs == [] then d else OneMore(AllDone(d, jobs[..|jobs| - 1]), jobs[|jobs| - 1])
  }

  /** The sorts of result the main loop tells apart. */
  datatype Sort = ToReply | ToLogIn | ToTurnAway | ToSayUnknown

  function SortOf(r: Result): Sort {
    match r
    case RpcDone(_) => ToReply
    case AuthOk(_, _) => ToLogIn
    case AuthNo => ToTurnAway
    case AuthUn => ToSayUnknown
  }

  function Sorts(posts: seq<Result>): seq<Sort> {
    seq(|posts|, i requires 0 <= i < |posts| => SortOf(posts[i]))
  }

  lemma SortsConcat(a: seq<Result>, b: seq<Result>)
    ensures Sorts(a + b) == Sorts(a) + Sorts(b)
  {
  }

  /**
   The sort of result the main loop is to get for a task: none for a barrier, the verdict on the account for a login,
   a reply for any other.
   */
  function Due<H, C>(job: Job<H, C>): seq<Sort> {
    if job.kind == BARRIER then []
    else if job.kind != AUTHORISE then [ToReply]
    else [match AccountFor(job.request, job.lib) case Solvent(_) => ToLogIn case Broke => ToTurnAway case Unlisted => ToSayUnknown]
  }

  /** The sorts of result the main loop is to get for these tasks, in order. */
  function Expected<H, C>(jobs: seq<Job<H, C>>): seq<Sort> {
    if jobs == [] then []
    else Expected(jobs[..|jobs| - 1]) + Due(jobs[|jobs| - 1])
  }

  lemma OneResultIsDue<H, C>(d: Doings<H, C>, job: Job<H, C>)
    ensures Sorts(OneMore(d, job).posts) == Sorts(d.posts) + Due(job)
  {
    var f := Inspect(job.kind, job.request, d.tables, job.lib, job.users, false);
    SortsConcat(d.posts, Posts(job.kind, job.request, f, job.lib));
  }

  /** Whatever the tables hold, the results posted for these tasks are, one for one and in order, of the sorts they are due. */
  lemma {:induction false} ResultsAreDue<H, C>(d: Doings<H, C>, jobs: seq<Job<H, C>>)
    ensures Sorts(AllDone(d, jobs).posts) == Sorts(d.posts) + Expected(jobs)
  {
    if jobs != [] {
      ResultsAreDue(d, jobs[..|jobs| - 1]);
      OneResultIsDue(AllDone(d, jobs[..|jobs| - 1]), jobs[|jobs| - 1]);
    }
  }

  /** A worker's doings and the tables it works on. */
  ghost function DoneSoFar<H(!new), C>(w: Worker<H>, objects: Objects<H, C>): Doings<H, C>
    requires objects.Valid()
    reads w, objects.canvases, objects.sprites, objects.placements
    reads objects.canvases.arr, objects.sprites.arr, objects.placements.arr
  {
    Doings(w.posts, w.calls, objects.Contents())
  }

  /** Nothing is lost while there is memory, and a movie request that runs over has changed nothing. */
  lemma WithMemory<H, C>(job: Job<H, C>, t: Tables<H, C>)
    ensures var f := Inspect(job.kind, job.request, t, job.lib, job.users, false);
            && TablesLeft(job.kind, job.client, t, f, job.lib) == Fine(TablesAfter(job.kind, job.client, t, f, job.lib))
            && (Overruns(job.kind, f, job.lib) ==>
                  TablesAfter(job.kind, job.client, t, f, job.lib) == t && Calls(job.kind, f, job.lib) == [])
  {
  }

  /** One turn of a worker's loop, when there is memory for larger tables. */
  method ServeOne<H(!new, ==), C(==)>(job: Job<H, C>, objects: Objects<H, C>, w: Worker<H>, ghost before: Doings<H, C>)
    returns (overrun: bool)
    requires objects.Valid() && job.kind != HANDSHAKE && job.lib.room && before == DoneSoFar(w, objects)
    modifies w, objects.canvases, objects.sprites, objects.placements
    modifies objects.canvases.arr, objects.sprites.arr, objects.placements.arr
    ensures objects.Valid() && objects.Regrown()
    ensures overrun ==> job.kind == GENERATE
    ensures DoneSoFar(w, objects) == if overrun then before else OneMore(before, job)
  {
    WithMemory(job, before.tables);
    overrun := Serve(job.kind, job.request, job.client, objects, job.lib, job.users, w, before.tables, false);
  }

  /**
   A worker's loop over the tasks it takes, while there is memory for larger tables: it has posted, called and changed
   what these tasks come to one after another, so the results are one for one and in order those the tasks are due.
   Only an overrun of a frame loop stops it.
   */
  method Routine<H(!new, ==), C(==)>(jobs: seq<Job<H, C>>, objects: Objects<H, C>, w: Worker<H>) returns (done: nat, overrun: bool)
    requires objects.Valid()
    requires forall i :: 0 <= i < |jobs| ==> jobs[i].kind != HANDSHAKE && jobs[i].lib.room
    modifies w, objects.canvases, objects.sprites, objects.placements
    modifies objects.canvases.arr, objects.sprites.arr, objects.placements.arr
    ensures done <= |jobs| && (!overrun ==> done == |jobs|) && (overrun ==> done < |jobs| && jobs[done].kind == GENERATE)
    ensures objects.Valid() && DoneSoFar(w, objects) == AllDone(old(DoneSoFar(w, objects)), jobs[..done])
    ensures Sorts(w.posts) == Sorts(old(w.posts)) + Expected(jobs[..done])
  {
    ghost var start := DoneSoFar(w, objects);
    done, overrun := 0, false;
    while done < |jobs|
      invariant done <= |jobs| && objects.Valid() && DoneSoFar(w, objects) == AllDone(start, jobs[..done])
      invariant objects.Regrown()
    {
      overrun := ServeOne(jobs[done], objects, w, DoneSoFar(w, objects));
      if overrun {
        ResultsAreDue(start, jobs[..done]);
        return;
      }
      OneMoreDone(start, jobs, done);
      done := done + 1;
    }
    ResultsAreDue(start, jobs[..done]);
  }

  lemma OneMoreDone<H, C>(d: Doings<H, C>, jobs: seq<Job<H, C>>, n: nat)
    requires n < |jobs|
    ensures AllDone(d, jobs[..n + 1]) == OneMore(AllDone(d, jobs[..n]), jobs[n])
  {
    assert jobs[..n + 1][..n] == jobs[..n];
  }
}
