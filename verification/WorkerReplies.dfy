/** What a client can rely on in the replies of the workers, and in the ids they carry. */
module WorkerReplies {
  import opened Common
  import Fifo
  import Transport
  import opened Whitespace
  import opened ReplyCodec
  import opened Arguments
  import opened ArgumentErrors
  import opened ObjectTable
  import opened UserFile
  import opened WorkerTasks

  /**
   The overrun is real: any sensible movie request whose last frame is the largest int, on a live canvas, ends in
   one when all its frames are written.
   */
  lemma LastFrameOverruns<H, C>(m: Movie, t: Tables<H, C>, lib: Library<H>, users: seq<User>, full: bool)
    requires IsWord(m.filename) && '\0' !in m.filename && |m.filename| < MAX_FILENAME_LEN
    requires IsInt(m.canvas) && 0 <= m.first <= m.last == INT_MAX && 0 < m.rate <= INT_MAX
    requires LiveAt(t.canvases, m.canvas) && lib.datOpens && lib.frameBytes && lib.frameBuffer && FramesWritten(m, lib)
    ensures Overruns(GENERATE, Inspect(GENERATE, MovieText(m), t, lib, users, full), lib)
  {
    MovieTypedBack(m);
  }

  // ---------------------------------------------------------------- logins

  /**
   A login against a file of names and balances is decided by the first listing under exactly the name that was sent:
   a positive balance lets the client in with it, under the first 31 characters of the name.
   */
  lemma LoginByListing<H>(request: string, ls: seq<Listing>, f: Findings<H>, lib: Library<H>)
    requires lib.userFile == Some(FileText(ls)) && forall i :: 0 <= i < |ls| ==> Listable(ls[i])
    ensures FirstOf(ls, CString(request)) == |ls| ==> Posts(AUTHORISE, request, f, lib) == [AuthUn]
    ensures forall i :: i == FirstOf(ls, CString(request)) < |ls| && ls[i].balance <= 0 ==> Posts(AUTHORISE, request, f, lib) == [AuthNo]
    ensures forall i :: i == FirstOf(ls, CString(request)) < |ls| && ls[i].balance > 0 ==>
              Posts(AUTHORISE, request, f, lib) ==
              [AuthOk(ls[i].balance, if |ls[i].name| <= 31 then ls[i].name else ls[i].name[..31])]
  {
    FirstListingDecides(ls, CString(request));
  }

  // ---------------------------------------------------------------- success and failure

  /** Does the reply report success? For GENERATE, which reports its later failures under a first value of 0, three zeros do. */
  predicate Succeeded(kind: TaskType, reply: Triple) {
    if kind == GENERATE then reply == Triple(0, 0, 0) else reply.a == 0
  }

  /** With the kind of request known, the reply tells a task that was carried out from one that was not. */
  lemma ReplyTellsSuccess<H>(kind: TaskType, f: Findings<H>, lib: Library<H>)
    requires Tokenised(kind) || kind == GENERATE
    ensures Succeeded(kind, Answer(kind, f, lib)) <==> AllPass(Checks(kind, f, lib))
  {
    Decides(kind, f, lib, FirstFailing(Checks(kind, f, lib)));
  }

  /** The client says "Success", with or without a number. */
  predicate SaysSuccess(m: Message) {
    m.Success? || m.SuccessWith?
  }

  lemma PrintedTellsSuccess<H>(kind: TaskType, f: Findings<H>, lib: Library<H>)
    requires Tokenised(kind) || kind == GENERATE
    ensures SaysSuccess(Printed(Present(Answer(kind, f, lib)))) <==>
            AllPass(Checks(kind, f, lib)) && !(kind == DESTROY_SPRITE && lib.ret == -1)
  {
    var checks := Checks(kind, f, lib);
    var i := FirstFailing(checks);
    Decides(kind, f, lib, i);
    if i < |checks| {
      assert checks[i].otherwise in {MALFORMED, BAD_VALUE, INTERNAL, NO_DATA, NO_MOVIE};
    } else if Creates(kind) {
      assert checks[|checks| - 1].passes;
    }
  }

  /**
   What the client prints, from the bytes of the reply alone and whatever follows them: it reports success exactly
   when the task was carried out, except that a sprite whose destruction the library answers with -1 is reported
   as data that could not be written.
   */
  lemma MessageTellsSuccess<H>(kind: TaskType, f: Findings<H>, lib: Library<H>, rest: string)
    requires (Tokenised(kind) || kind == GENERATE) && InRange(Answer(kind, f, lib))
    ensures Fifo.TakeRecord(Reply(Answer(kind, f, lib)) + rest, '\n', Transport.ROOM).Some?
    ensures var record := Fifo.TakeRecord(Reply(Answer(kind, f, lib)) + rest, '\n', Transport.ROOM).value.0;
            var message := Printed(Scan(Clean(CString(record)), 3));
            && (SaysSuccess(message) <==> AllPass(Checks(kind, f, lib)) && !(kind == DESTROY_SPRITE && lib.ret == -1))
            && (kind == DESTROY_SPRITE && lib.ret == -1 && AllPass(Checks(kind, f, lib)) ==> message == DataWriteFailed)
  {
    ReplyRoundTrip(Answer(kind, f, lib), rest);
    PrintedTellsSuccess(kind, f, lib);
    if kind == DESTROY_SPRITE && lib.ret == -1 && AllPass(Checks(kind, f, lib)) {
      Decides(kind, f, lib, |Checks(kind, f, lib)|);
      assert Answer(kind, f, lib) == Triple(0, -1, INT_MIN);
    }
  }

  /**
   A task that reports a failure leaves every table as it was, if and only if it loses none: that is, unless it is a
   create that has to grow a table which is not empty and finds no memory.
   */
  lemma FailureChangesNothingUnlessLost<H, C>(kind: TaskType, client: C, t: Tables<H, C>, f: Findings<H>, lib: Library<H>)
    requires Tokenised(kind) || kind == GENERATE
    requires !Succeeded(kind, Answer(kind, f, lib))
    ensures TablesLeft(kind, client, t, f, lib) == Fine(t) <==> !Loses(kind, t, f)
    ensures Loses(kind, t, f) ==> Creates(kind) && Answer(kind, f, lib) == INTERNAL && TablesLeft(kind, client, t, f, lib).Fault?
  {
    ReplyTellsSuccess(kind, f, lib);
    if Loses(kind, t, f) {
      var last := |Checks(kind, f, lib)| - 1;
      Decides(kind, f, lib, last);
    }
  }

  // ---------------------------------------------------------------- ids

  predicate Destroying(kind: TaskType) {
    kind in {DESTROY_CANVAS, DESTROY_SPRITE, DESTROY_PLACEMENT}
  }

  /** The table a task that makes or destroys an object works on. */
  function TableOf<H, C>(kind: TaskType, t: Tables<H, C>): seq<Entry<H, C>> {
    if kind == CREATE_CANVAS || kind == DESTROY_CANVAS then t.canvases
    else if kind == PLACE_SPRITE || kind == DESTROY_PLACEMENT then t.placements
    else t.sprites
  }

  /**
   The id in a create reply is that of a new last entry, which holds the object that was made for this client; no
   other entry of any table changes. A create that fails leaves the tables as they were, or has lost one.
   */
  lemma CreateReplyNamesTheObject<H, C>(kind: TaskType, request: string, client: C, t: Tables<H, C>, lib: Library<H>,
                                        users: seq<User>, full: bool)
    requires Creates(kind)
    ensures var f := Inspect(kind, request, t, lib, users, full);
            var reply, left := Answer(kind, f, lib), TablesLeft(kind, client, t, f, lib);
            if reply.a == 0 then
              && reply == Triple(0, |TableOf(kind, t)|, INT_MIN) && lib.made.Some?
              && var entry := Entry(lib.made, reply.b, Some(client));
                 left == Fine(if kind == CREATE_CANVAS then t.(canvases := t.canvases + [entry])
                              else if kind == PLACE_SPRITE then t.(placements := t.placements + [entry])
                              else t.(sprites := t.sprites + [entry]))
            else left == if Loses(kind, t, f) then Fault else Fine(t)
  {
    var f := Inspect(kind, request, t, lib, users, full);
    if f.args.Args? && f.Found() {
      CreateDecides(kind, client, t, lib, f);
    } else {
      RefusedDecides(kind, client, t, lib, f);
    }
  }

  lemma DestroyFindings<H, C>(kind: TaskType, id: nat, t: Tables<H, C>, lib: Library<H>, users: seq<User>, full: bool)
    requires Destroying(kind) && id <= INT_MAX
    ensures var f := Inspect(kind, Decimal(id), t, lib, users, full);
            f.args == Args([Decimal(id)], [id]) && f.handles == One(At(TableOf(kind, t), id))
  {
    NumberTypedBack(kind, id);
  }

  lemma ClearedTable<H(!new), C>(kind: TaskType, id: nat, t: Tables<H, C>)
    requires Destroying(kind) && id <= INT_MAX && LiveAt(TableOf(kind, t), id)
    ensures TableOf(kind, Cleared(kind, t, id)) == After(TableOf(kind, t), Removes(id))
    ensures !LiveAt(TableOf(kind, Cleared(kind, t, id)), id)
    ensures Destroys(TableOf(kind, t), Removes(id)) == multiset{TableOf(kind, t)[id].ptr.value}
  {
  }

  /**
   Typing an id into a destroy request destroys exactly the object that id leads to, and makes the id lead nowhere;
   an id that leads nowhere is refused and changes nothing. So nothing is destroyed twice by its id.
   */
  lemma DestroyByTypedId<H(!new), C>(kind: TaskType, id: nat, client: C, t: Tables<H, C>, lib: Library<H>, users: seq<User>, full: bool)
    requires Destroying(kind) && id <= INT_MAX
    ensures var f := Inspect(kind, Decimal(id), t, lib, users, full);
            var reply, left := Answer(kind, f, lib), TablesLeft(kind, client, t, f, lib);
            if LiveAt(TableOf(kind, t), id) then
              && reply.a == 0 && left == Fine(Cleared(kind, t, id)) && !LiveAt(TableOf(kind, left.value), id)
              && Destroys(TableOf(kind, t), Removes(id)) == multiset{TableOf(kind, t)[id].ptr.value}
              && left.value == (if kind == DESTROY_CANVAS then t.(canvases := t.canvases[id := t.canvases[id].(ptr := None)])
                                else if kind == DESTROY_SPRITE then t.(sprites := t.sprites[id := t.sprites[id].(ptr := None)])
                                else t.(placements := t.placements[id := t.placements[id].(ptr := None)]))
            else reply.a < 0 && left == Fine(t) && Calls(kind, f, lib) == []
  {
    DestroyFindings(kind, id, t, lib, users, full);
    var f := Inspect(kind, Decimal(id), t, lib, users, full);
    if f.Found() {
      ClearedTable(kind, id, t);
      ClearDecides(kind, client, t, lib, f);
    } else {
      RefusedDecides(kind, client, t, lib, f);
    }
  }

  predicate Moving(kind: TaskType) {
    kind in {PLACEMENT_UP, PLACEMENT_DOWN, PLACEMENT_TOP, PLACEMENT_BOTTOM}
  }

  lemma MoveFindings<H, C>(kind: TaskType, id: nat, t: Tables<H, C>, lib: Library<H>, users: seq<User>, full: bool)
    requires Moving(kind) && id <= INT_MAX
    ensures var f := Inspect(kind, Decimal(id), t, lib, users, full);
            f.args == Args([Decimal(id)], [id]) && f.handles == One(At(t.placements, id))
  {
    NumberTypedBack(kind, id);
  }

  /** Typing an id into a request to move a placement in its stack makes that one library call, on exactly that placement. */
  lemma MoveByTypedId<H, C>(kind: TaskType, id: nat, client: C, t: Tables<H, C>, lib: Library<H>, users: seq<User>, full: bool)
    requires Moving(kind) && id <= INT_MAX
    ensures var f := Inspect(kind, Decimal(id), t, lib, users, full);
            && TablesLeft(kind, client, t, f, lib) == Fine(t)
            && Answer(kind, f, lib) == (if LiveAt(t.placements, id) then Code(0) else Code(-2))
            && Calls(kind, f, lib) == if LiveAt(t.placements, id) then [Operates(kind, [t.placements[id].ptr.value], [id])] else []
  {
    MoveFindings(kind, id, t, lib, users, full);
    var f := Inspect(kind, Decimal(id), t, lib, users, full);
    if f.Found() {
      ClearDecides(kind, client, t, lib, f);
    } else {
      RefusedDecides(kind, client, t, lib, f);
    }
  }

  /**
   An id and a name typed into a request to share are carried out exactly when that canvas is there, somebody of that
   name is logged in, and there is room.
   */
  lemma ShareByTypedWords<H, C>(id: nat, name: string, client: C, t: Tables<H, C>, lib: Library<H>, users: seq<User>, full: bool)
    requires id <= INT_MAX && IsWord(name) && '\0' !in name && |Decimal(id)| + 1 + |name| <= 127
    ensures var f := Inspect(SHARE, Decimal(id) + [' '] + name, t, lib, users, full);
            && TablesLeft(SHARE, client, t, f, lib) == Fine(t)
            && Answer(SHARE, f, lib) ==
               if !LiveAt(t.canvases, id) then Code(-2)
               else if forall i :: 0 <= i < |users| && users[i].loggedIn ==> users[i].username != name then Code(-2)
               else if !lib.shareRoom then Code(-3)
               else Code(0)
  {
    ShareTypedBack(id, name);
    var f := Inspect(SHARE, Decimal(id) + [' '] + name, t, lib, users, full);
    if f.Found() {
      ShareDecides(f, lib);
    } else {
      RefusedDecides(SHARE, client, t, lib, f);
    }
  }

  /**
   From create to destroy: the id a client was given for an object, typed back after any run of calls on its table
   by anybody, destroys that object and no other, or is refused because the object is already gone.
   */
  lemma GivenIdDestroysItsObject<H(!new), C>(kind: TaskType, id: nat, handle: H, owner: C, es: seq<Entry<H, C>>, ops: seq<Op<H, C>>,
                                             client: C, t: Tables<H, C>, lib: Library<H>, users: seq<User>, full: bool)
    requires Destroying(kind) && id == |es| <= INT_MAX
    requires TableOf(kind, t) == AfterAll(After(es, Inserts(handle, owner)), ops)
    ensures var f := Inspect(kind, Decimal(id), t, lib, users, full);
            var reply, left := Answer(kind, f, lib), TablesLeft(kind, client, t, f, lib);
            && id < |TableOf(kind, t)|
            && (reply.a == 0 ==> Destroys(TableOf(kind, t), Removes(id)) == multiset{handle} && left == Fine(Cleared(kind, t, id)))
            && (reply.a != 0 ==> left == Fine(t))
            && (reply.a == 0 <==> TableOf(kind, t)[id].ptr == Some(handle))
  {
    IdsAreStable(After(es, Inserts(handle, owner)), ops, id);
    DestroyByTypedId(kind, id, client, t, lib, users, full);
  }

  // ---------------------------------------------------------------- ids that are cut to 32 bits

  /** The kinds of task that pass a long to a lookup of an int. */
  predicate Narrows(kind: TaskType) {
    kind in {DESTROY_CANVAS, PLACE_SPRITE, SET_ANIM_PARAM}
  }

  /** The ids among the numbers of such a request. */
  function Ids(kind: TaskType, values: seq<int>): seq<int>
    requires Narrows(kind) && |values| == |Format(kind)|
  {
    if kind == PLACE_SPRITE then values[..2] else values[..1]
  }

  /** The objects the request names, if all of them are there. */
  function Named<H, C>(kind: TaskType, values: seq<int>, t: Tables<H, C>): Option<seq<H>>
    requires Narrows(kind) && |values| == |Format(kind)|
  {
    if kind == DESTROY_CANVAS then (if LiveAt(t.canvases, values[0]) then Some([t.canvases[values[0]].ptr.value]) else None)
    else if kind == SET_ANIM_PARAM then (if LiveAt(t.placements, values[0]) then Some([t.placements[values[0]].ptr.value]) else None)
    else if LiveAt(t.canvases, values[0]) && LiveAt(t.sprites, values[1]) then
      Some([t.canvases[values[0]].ptr.value, t.sprites[values[1]].ptr.value])
    else None
  }

  /** The ids of a table fit an int, as its counter does. */
  predicate Addressable<H, C>(t: Tables<H, C>) {
    |t.canvases| <= INT_MAX && |t.sprites| <= INT_MAX && |t.placements| <= INT_MAX
  }

  lemma NarrowedId<H, C>(es: seq<Entry<H, C>>, n: int)
    requires |es| <= INT_MAX
    ensures At(es, n).Some? ==> IsInt(n)
    ensures IsInt(n) ==> At(es, ToInt(n)) == At(es, n)
  {
  }

  predicate AllInts(ids: seq<int>) {
    forall i :: 0 <= i < |ids| ==> IsInt(ids[i])
  }

  lemma SingleIdIff<H, C>(kind: TaskType, values: seq<int>, t: Tables<H, C>)
    requires (kind == DESTROY_CANVAS || kind == SET_ANIM_PARAM) && |values| == |Format(kind)| && Addressable(t)
    ensures LookedUp(kind, values, t) == Named(kind, values, t) <==> AllInts(Ids(kind, values)) || LookedUp(kind, values, t) == None
  {
    NarrowedId(if kind == DESTROY_CANVAS then t.canvases else t.placements, values[0]);
    assert AllInts(Ids(kind, values)) <==> IsInt(values[0]) by {
      assert Ids(kind, values)[0] == values[0];
    }
  }

  lemma TwoIdsIff<H, C>(values: seq<int>, t: Tables<H, C>)
    requires |values| == |Format(PLACE_SPRITE)| && Addressable(t)
    ensures LookedUp(PLACE_SPRITE, values, t) == Named(PLACE_SPRITE, values, t)
            <==> AllInts(Ids(PLACE_SPRITE, values)) || LookedUp(PLACE_SPRITE, values, t) == None
  {
    NarrowedId(t.canvases, values[0]);
    NarrowedId(t.sprites, values[1]);
    assert AllInts(Ids(PLACE_SPRITE, values)) <==> IsInt(values[0]) && IsInt(values[1]) by {
      assert Ids(PLACE_SPRITE, values)[0] == values[0] && Ids(PLACE_SPRITE, values)[1] == values[1];
    }
  }

  /** What a task finds and calls when its numbers are typed with single blanks between them. */
  lemma TypedFindings<H, C>(kind: TaskType, values: seq<int>, t: Tables<H, C>, lib: Library<H>, users: seq<User>, full: bool)
    requires Tokenised(kind) && kind != SHARE
    requires AllAccept(Format(kind), values)
    ensures var f := Inspect(kind, Joined(Texts(values)), t, lib, users, full);
            && f.args == Args(Texts(values), values) && f.handles == LookedUp(kind, values, t)
            && (if f.handles.Some? then Calls(kind, f, lib) != [] && Calls(kind, f, lib)[0] == Operates(kind, f.handles.value, values)
                else Calls(kind, f, lib) == [])
  {
    NumbersTypedBack(kind, values);
  }

  /**
   A request whose ids are cut to 32 bits makes its library call on the objects it names, or finds them missing when
   they are, if and only if its ids are ints, or the cut ids do not all lead to an object either.
   */
  lemma WorksOnTheNamedIff<H, C>(kind: TaskType, values: seq<int>, t: Tables<H, C>, lib: Library<H>, users: seq<User>, full: bool)
    requires Narrows(kind) && AllAccept(Format(kind), values) && Addressable(t)
    ensures var f := Inspect(kind, Joined(Texts(values)), t, lib, users, full);
            && (f.handles == Named(kind, values, t) <==> AllInts(Ids(kind, values)) || LookedUp(kind, values, t) == None)
            && (if f.handles.Some? then Calls(kind, f, lib) != [] && Calls(kind, f, lib)[0] == Operates(kind, f.handles.value, values)
                else Calls(kind, f, lib) == [])
  {
    TypedFindings(kind, values, t, lib, users, full);
    if kind == PLACE_SPRITE {
      TwoIdsIff(values, t);
    } else {
      SingleIdIff(kind, values, t);
    }
  }

  /** A destroy request does for canvas n what it should: destroy it, or refuse and change nothing when it is not there. */
  ghost predicate ActsOnNamed<H, C>(n: int, client: C, t: Tables<H, C>, f: Findings<H>, lib: Library<H>) {
    if LiveAt(t.canvases, n) then
      && Answer(DESTROY_CANVAS, f, lib) == Code(0)
      && TablesLeft(DESTROY_CANVAS, client, t, f, lib) == Fine(t.(canvases := After(t.canvases, Removes(n))))
    else Answer(DESTROY_CANVAS, f, lib) == NOT_FOUND && TablesLeft(DESTROY_CANVAS, client, t, f, lib) == Fine(t)
  }

  /** A destroy request for the long n acts on canvas ToInt(n). */
  lemma CanvasIdIsNarrowed<H, C>(n: int, client: C, t: Tables<H, C>, lib: Library<H>, users: seq<User>, full: bool)
    requires LONG_MIN <= n <= LONG_MAX
    ensures var f := Inspect(DESTROY_CANVAS, Decimal(n), t, lib, users, full);
            && Answer(DESTROY_CANVAS, f, lib) == (if LiveAt(t.canvases, ToInt(n)) then Code(0) else NOT_FOUND)
            && (TablesLeft(DESTROY_CANVAS, client, t, f, lib) ==
                Fine(if LiveAt(t.canvases, ToInt(n)) then t.(canvases := After(t.canvases, Removes(ToInt(n)))) else t))
  {
    NumberTypedBack(DESTROY_CANVAS, n);
    var f := Inspect(DESTROY_CANVAS, Decimal(n), t, lib, users, full);
    assert f.args == Args([Decimal(n)], [n]);
    if f.Found() {
      ClearDecides(DESTROY_CANVAS, client, t, lib, f);
    } else {
      RefusedDecides(DESTROY_CANVAS, client, t, lib, f);
    }
  }

  /** So it does the right thing if and only if n is an int, or the canvas it is cut to is not there. */
  lemma DestroysTheNamedIff<H, C>(n: int, client: C, t: Tables<H, C>, lib: Library<H>, users: seq<User>, full: bool)
    requires LONG_MIN <= n <= LONG_MAX && |t.canvases| <= INT_MAX
    ensures ActsOnNamed(n, client, t, Inspect(DESTROY_CANVAS, Decimal(n), t, lib, users, full), lib)
            <==> IsInt(n) || !LiveAt(t.canvases, ToInt(n))
  {
    CanvasIdIsNarrowed(n, client, t, lib, users, full);
  }

  /** The alias is real: canvas k is also destroyed by a request for k + 4294967296, an id that no canvas has. */
  lemma WideIdDestroysAnother<H, C>(k: nat, n: int, client: C, t: Tables<H, C>, lib: Library<H>, users: seq<User>, full: bool)
    requires LiveAt(t.canvases, k) && k <= INT_MAX && n == k + 0x1_0000_0000
    ensures var f := Inspect(DESTROY_CANVAS, Decimal(n), t, lib, users, full);
            && Answer(DESTROY_CANVAS, f, lib) == Code(0)
            && TablesLeft(DESTROY_CANVAS, client, t, f, lib)
               == Fine(t.(canvases := t.canvases[k := t.canvases[k].(ptr := None)]))
  {
    Wraps(k, n);
    CanvasIdIsNarrowed(n, client, t, lib, users, full);
  }

  lemma Wraps(k: nat, n: int)
    requires k <= INT_MAX && n == k + 0x1_0000_0000
    ensures ToInt(n) == k && LONG_MIN <= n <= LONG_MAX
  {
  }
}
