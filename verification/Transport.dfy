/**
 A typed line's way from the client's terminal to the server (client/src/sender.c, the login loop of
 client/src/c_helper.c and the reads in server/src/animate_server.c).
 */
module Transport {
  import opened Common
  import opened Whitespace
  import opened Fifo

  /** Characters that fit a buffer of MAX_RPC_BUF_LEN besides the terminating NUL. */
  const ROOM: nat := MAX_RPC_BUF_LEN - 1

  /** fgets: up to room characters, ending with the first newline. */
  function NextChunk(typed: string, room: nat): (r: (string, string))
    ensures r.0 + r.1 == typed && |r.0| <= room
    ensures room > 0 && typed != [] ==> |r.1| < |typed|
  {
    if room == 0 || typed == [] then ([], typed)
    else if typed[0] == '\n' then ([typed[0]], typed[1..])
    else
      var (chunk, rest) := NextChunk(typed[1..], room - 1);
      ([typed[0]] + chunk, rest)
  }

  /** snprintf of a text and a newline into the send buffer: the newline is cut off a text that fills the room. */
  function Encoded(text: string): string {
    if |text| < ROOM then text + ['\n'] else text[..ROOM]
  }

  const DISCONNECT := "Disconnect"

  /** The texts a client sends for what is typed: the clean non-empty chunks, up to a Disconnect. */
  function Session(typed: string): (texts: seq<string>)
    decreases |typed|
  {
    if typed == [] then []
    else
      var (chunk, rest) := NextChunk(typed, ROOM);
      var text := Clean(CString(chunk));
      if text == [] then Session(rest)
      else if text == DISCONNECT then [text]
      else [text] + Session(rest)
  }

  /** The bytes that put these texts on the wire. */
  function Wire(texts: seq<string>): string {
    if texts == [] then [] else Encoded(texts[0]) + Wire(texts[1..])
  }

  /** The records a server reads from a wire until it finds no complete one. */
  function Records(wire: string): seq<string>
    decreases |wire|
  {
    match TakeRecord(wire, '\n', ROOM)
    case None => []
    case Some((record, rest)) => if |rest| < |wire| then [record] + Records(rest) else []
  }

  // ---------------------------------------------------------------- what can be a text

  /** A text the sender can put on the wire: clean, not empty, and no longer than a buffer. */
  ghost predicate Sendable(text: string) {
    text != [] && |text| <= ROOM && '\n' !in text
  }

  lemma TidyHasNoNewline(text: string)
    requires Tidy(text)
    ensures '\n' !in text
  {
  }

  lemma ChunkIsSendable(chunk: string)
    requires |chunk| <= ROOM
    ensures Clean(CString(chunk)) == [] || Sendable(Clean(CString(chunk)))
  {
    var s := CString(chunk);
    CleanLength(s);
    CleanKeepsWords(s);
    CleanIffTidy(Clean(s));
    TidyHasNoNewline(Clean(s));
  }

  /** One record off a wire is one text, whether or not its newline fitted the send buffer. */
  lemma TakeEncoded(text: string, rest: string)
    requires Sendable(text)
    ensures TakeRecord(Encoded(text) + rest, '\n', ROOM) == Some((text, rest))
  {
    if |text| < ROOM {
      TakeRecordShort(text, '\n', rest, ROOM);
    } else {
      assert text[..ROOM] == text;
      TakeRecordFull(text, '\n', rest, ROOM);
    }
  }

  lemma {:induction false} RecordsOfWire(texts: seq<string>)
    requires forall i :: 0 <= i < |texts| ==> Sendable(texts[i])
    ensures Records(Wire(texts)) == texts
  {
    if texts != [] {
      TakeEncoded(texts[0], Wire(texts[1..]));
      RecordsOfWire(texts[1..]);
    }
  }

  lemma {:induction false} SessionSendable(typed: string)
    ensures forall i :: 0 <= i < |Session(typed)| ==> Sendable(Session(typed)[i])
    decreases |typed|
  {
    if typed != [] {
      var (chunk, rest) := NextChunk(typed, ROOM);
      ChunkIsSendable(chunk);
      SessionSendable(rest);
    }
  }

  /**
   End to end, for anything typed at all: the records the server reads off the wire are exactly the texts
   of the session, in order, none merged, split, lost or invented.
   */
  lemma ServerReadsTheSession(typed: string)
    ensures Records(Wire(Session(typed))) == Session(typed)
  {
    SessionSendable(typed);
    RecordsOfWire(Session(typed));
  }

  // ---------------------------------------------------------------- lines

  /** The typed form of a sequence of lines. */
  function Typed(lines: seq<string>): string {
    if lines == [] then [] else lines[0] + ['\n'] + Typed(lines[1..])
  }

  /** The clean non-empty lines, up to a Disconnect. */
  function CleanLines(lines: seq<string>): seq<string> {
    if lines == [] then []
    else
      var text := Clean(lines[0]);
      if text == [] then CleanLines(lines[1..])
      else if text == DISCONNECT then [text]
      else [text] + CleanLines(lines[1..])
  }

  /** A line fits when it has no newline or NUL inside and no more characters than the buffer has room. */
  ghost predicate Fits(line: string) {
    '\n' !in line && '\0' !in line && |line| <= ROOM
  }

  lemma {:induction false} FgetsLine(line: string, rest: string, room: nat)
    requires '\n' !in line && |line| < room
    ensures NextChunk(line + ['\n'] + rest, room) == (line + ['\n'], rest)
  {
    var typed := line + ['\n'] + rest;
    if line == [] {
      assert typed[1..] == rest;
    } else {
      assert typed[1..] == line[1..] + ['\n'] + rest;
      FgetsLine(line[1..], rest, room - 1);
      assert [line[0]] + (line[1..] + ['\n']) == line + ['\n'];
    }
  }

  lemma {:induction false} FgetsFull(line: string, rest: string, room: nat)
    requires '\n' !in line && |line| == room
    ensures NextChunk(line + rest, room) == (line, rest)
  {
    if line == [] {
      assert line + rest == rest;
    } else {
      assert (line + rest)[1..] == line[1..] + rest;
      FgetsFull(line[1..], rest, room - 1);
      assert [line[0]] + line[1..] == line;
    }
  }

  /** A line's newline, wherever fgets leaves it, adds nothing to what is sent. */
  lemma OneLine(line: string, rest: string)
    requires Fits(line)
    ensures Session(line + ['\n'] + rest) ==
            var text := Clean(line);
            if text == [] then Session(rest) else if text == DISCONNECT then [text] else [text] + Session(rest)
  {
    var typed := line + ['\n'] + rest;
    CStringNoNul(line);
    if |line| < ROOM {
      FgetsLine(line, rest, ROOM);
      CStringNoNul(line + ['\n']);
      WordsSpace(line, '\n');
    } else {
      assert typed == line + (['\n'] + rest);
      FgetsFull(line, ['\n'] + rest, ROOM);
      assert (['\n'] + rest)[1..] == rest;
      assert NextChunk(['\n'] + rest, ROOM) == (['\n'], rest);
      CStringNoNul(['\n']);
      assert [] + ['\n'] == ['\n'];
      WordsSpace([], '\n');
      assert Clean(CString(['\n'])) == [];
      assert Session(['\n'] + rest) == Session(rest);
    }
  }

  /** For lines that fit the input buffer, the server reads exactly the clean non-empty lines in order. */
  lemma LinesArrive(lines: seq<string>)
    requires forall i :: 0 <= i < |lines| ==> Fits(lines[i])
    ensures Records(Wire(Session(Typed(lines)))) == CleanLines(lines)
  {
    ServerReadsTheSession(Typed(lines));
    SessionOfLines(lines);
  }

  lemma {:induction false} SessionOfLines(lines: seq<string>)
    requires forall i :: 0 <= i < |lines| ==> Fits(lines[i])
    ensures Session(Typed(lines)) == CleanLines(lines)
  {
    if lines != [] {
      OneLine(lines[0], Typed(lines[1..]));
      SessionOfLines(lines[1..]);
    }
  }

  /** A line that is one word arrives as one record exactly when it fits. */
  lemma WordFitsExactly(line: string)
    requires IsWord(line) && '\0' !in line
    ensures Records(Wire(Session(Typed([line])))) == [line] <==> |line| <= 127
  {
    ServerReadsTheSession(Typed([line]));
    assert '\n' !in line;
    WordIsClean(line);
    if |line| <= ROOM {
      SessionOfLines([line]);
      assert CleanLines([line][1..]) == [];
    } else {
      var head := line[..ROOM];
      var rest := line[ROOM..] + ['\n'];
      assert Typed([line]) == head + rest;
      FgetsFull(head, rest, ROOM);
      assert '\0' !in head;
      CStringNoNul(head);
      WordIsClean(head);
      assert Session(Typed([line]))[0] == head;
    }
  }

  lemma WordIsClean(w: string)
    requires IsWord(w)
    ensures Clean(w) == w
  {
    WordsPrefix(w, []);
    assert w + [] == w;
  }

  /**
   The login request is sent from a buffer with room for its newline, so the newline of a text that fills
   the server's buffer stays on the wire and is read as an empty record of its own; no other text leaves one.
   */
  lemma LoginRecords(text: string, rest: string)
    requires Sendable(text)
    ensures Records(text + ['\n'] + rest) == (if |text| < ROOM then [text] else [text, []]) + Records(rest)
  {
    var wire := text + ['\n'] + rest;
    if |text| < ROOM {
      TakeRecordShort(text, '\n', rest, ROOM);
    } else {
      assert wire == text + (['\n'] + rest);
      TakeRecordFull(text, '\n', ['\n'] + rest, ROOM);
      assert (['\n'] + rest)[1..] == rest;
      assert Records(['\n'] + rest) == [[]] + Records(rest);
    }
  }

  // ---------------------------------------------------------------- sending and receiving at the same time

  /** What has been received are the first texts sent, and the wire holds the others whole. */
  ghost predicate InStep(sent: seq<string>, received: seq<string>, wire: string) {
    && (forall i :: 0 <= i < |sent| ==> Sendable(sent[i]))
    && received <= sent && wire == Wire(sent[|received|..])
  }

  lemma {:induction false} WireAppend(texts: seq<string>, text: string)
    ensures Wire(texts + [text]) == Wire(texts) + Encoded(text)
  {
    if texts == [] {
      assert texts + [text] == [text];
      assert Wire([text][1..]) == [];
      assert Encoded(text) + [] == Encoded(text);
    } else {
      assert (texts + [text])[1..] == texts[1..] + [text];
      WireAppend(texts[1..], text);
    }
  }

  /** A send of one text, which is one atomic write, keeps the two sides in step. */
  lemma SendKeepsStep(sent: seq<string>, received: seq<string>, wire: string, text: string)
    requires InStep(sent, received, wire) && Sendable(text)
    ensures InStep(sent + [text], received, wire + Encoded(text))
  {
    assert (sent + [text])[|received|..] == sent[|received|..] + [text];
    WireAppend(sent[|received|..], text);
  }

  /** At any moment a read finds either an empty wire or one whole record, which is the next text sent. */
  lemma ReceiveKeepsStep(sent: seq<string>, received: seq<string>, wire: string)
    requires InStep(sent, received, wire)
    ensures wire == [] <==> received == sent
    ensures wire != [] ==>
              && |received| < |sent|
              && var text := sent[|received|];
              && TakeRecord(wire, '\n', ROOM).Some? && TakeRecord(wire, '\n', ROOM).value.0 == text
              && InStep(sent, received + [text], TakeRecord(wire, '\n', ROOM).value.1)
  {
    var left := sent[|received|..];
    if left == [] {
      assert received == sent;
    } else {
      TakeEncoded(left[0], Wire(left[1..]));
      assert left[1..] == sent[|received| + 1..];
      assert received + [left[0]] == sent[..|received| + 1];
    }
  }

  // ---------------------------------------------------------------- the client's side in place

  /** Standard input: what is typed and not yet read. */
  class Terminal {
    var typed: string

    constructor (typed: string)
      ensures this.typed == typed
    {
      this.typed := typed;
    }

    /** fgets into a buffer, with its terminating NUL; false at the end of the input. */
    method Fgets(out: array<char>) returns (ok: bool, ghost chunk: string)
      requires out.Length == MAX_RPC_BUF_LEN
      modifies this, out
      ensures ok <==> old(typed) != []
      ensures (chunk, typed) == NextChunk(old(typed), ROOM)
      ensures ok ==> out[..|chunk|] == chunk && out[|chunk|] == '\0'
    {
      var (text, rest) := NextChunk(typed, ROOM);
      chunk := text;
      ok := typed != [];
      if ok {
        forall i | 0 <= i < |text| {
          out[i] := text[i];
        }
        out[|text|] := '\0';
        typed := rest;
      }
    }
  }

  lemma {:induction false} CStringOfPrefix(buf: seq<char>, chunk: string)
    requires |chunk| < |buf| && buf[..|chunk|] == chunk && buf[|chunk|] == '\0'
    ensures CString(buf) == CString(chunk)
  {
    if chunk != [] {
      assert buf[0] == chunk[0] && buf[1..][..|chunk| - 1] == chunk[1..];
      CStringOfPrefix(buf[1..], chunk[1..]);
    }
  }

  /** The text of a C string buffer, as strlen delimits it. */
  method Text(buf: array<char>) returns (text: string)
    requires '\0' in buf[..]
    ensures text == CString(buf[..])
  {
    ghost var n := FirstNul(buf[..]);
    assert forall k :: 0 <= k < n ==> buf[k] == buf[..][..n][k];
    var i := 0;
    while buf[i] != '\0'
      invariant i <= n && forall k :: 0 <= k < i ==> buf[k] != '\0'
      decreases n - i
    {
      i := i + 1;
    }
    CStringTerminated(buf[..], i);
    text := buf[..i];
  }

  /** The text of the first chunk of what is typed, if there is one to send. */
  ghost function ChunkText(typed: string): seq<string> {
    if typed == [] then []
    else
      var text := Clean(CString(NextChunk(typed, ROOM).0));
      if text == [] then [] else [text]
  }

  /** What send_user_input returns for what is typed. */
  ghost function TurnCode(typed: string): int {
    if typed == [] then -1 else if ChunkText(typed) == [DISCONNECT] then 0 else 1
  }

  /** The kernel's promises to a writer of request lines: finitely many interruptions, and short writes whole or not at all. */
  ghost predicate Writable(p: Pipe, patience: nat) {
    Patient(p.answers, patience) && Atomic(p.answers, MAX_RPC_BUF_LEN)
  }

  /** The texts that a write of one text puts on the wire: that text, or none. */
  method WriteText(p: Pipe, line: string, ghost text: string, ghost patience: nat) returns (ghost sent: seq<string>)
    requires Writable(p, patience) && line == Encoded(text) && text != []
    modifies p`bytes, p`calls, p`last
    ensures sent == [] || sent == [text]
    ensures p.bytes == old(p.bytes) + Wire(sent)
    ensures Willing(p.answers) ==> sent == [text]
  {
    var ret, moved := WriteBlock(p, line, patience);
    assert Atomic(p.answers, |line|);
    sent := if moved == 0 then [] else [text];
    assert line[..0] == [] && line[..|line|] == line;
    assert Wire([text][1..]) == [] && Encoded(text) + [] == Encoded(text);
  }

  /**
   send_user_input: -1 at the end of the input, 0 after a Disconnect, 1 otherwise. The result of the write is
   ignored, so a text may be lost whole; it is never cut or merged.
   */
  method SendUserInput(t: Terminal, out: array<char>, p: Pipe, ghost patience: nat) returns (code: int, ghost sent: seq<string>)
    requires out.Length == MAX_RPC_BUF_LEN && Writable(p, patience)
    modifies t, out, p`bytes, p`calls, p`last
    ensures t.typed == NextChunk(old(t.typed), ROOM).1
    ensures p.bytes == old(p.bytes) + Wire(sent)
    ensures code == TurnCode(old(t.typed))
    ensures code == -1 <==> old(t.typed) == []
    ensures code == 0 <==> ChunkText(old(t.typed)) == ["Disconnect"]
    ensures sent == [] || sent == ChunkText(old(t.typed))
    ensures Willing(p.answers) ==> sent == ChunkText(old(t.typed))
  {
    sent := [];
    var ok, chunk := t.Fgets(out);
    if !ok {
      return -1, [];
    }
    assert out[..][|chunk|] == '\0';
    CStringOfPrefix(out[..], chunk);
    SanitiseWhitespace(out);
    var text := Text(out);
    if text == [] {
      return 1, [];
    }
    if text == DISCONNECT {
      sent := WriteText(p, DISCONNECT + ['\n'], text, patience);
      return 0, sent;
    }
    var line := text + ['\n'];
    sent := WriteText(p, line[..if |line| <= ROOM then |line| else ROOM], text, patience);
    code := 1;
  }

  lemma SessionStep(typed: string)
    requires typed != []
    ensures var now, rest := ChunkText(typed), NextChunk(typed, ROOM).1;
            Session(typed) == now + if now == [DISCONNECT] then [] else Session(rest)
  {
  }

  /** a is b with some elements left out. */
  ghost predicate Thinned(a: seq<string>, b: seq<string>) {
    if a == [] then true
    else if b == [] then false
    else || (a[|a| - 1] == b[|b| - 1] && Thinned(a[..|a| - 1], b[..|b| - 1]))
         || Thinned(a, b[..|b| - 1])
  }

  /** One more text tried, and sent or not. */
  lemma ThinnedMore(a: seq<string>, b: seq<string>, now: seq<string>, sent: seq<string>)
    requires Thinned(a, b) && |now| <= 1 && (sent == [] || sent == now)
    ensures Thinned(a + sent, b + now)
  {
    assert a + [] == a && b + [] == b;
    if now != [] {
      assert (b + now)[..|b|] == b;
      if sent != [] {
        assert (a + sent)[..|a|] == a;
      }
    }
  }

  lemma {:induction false} WireConcat(a: seq<string>, b: seq<string>)
    ensures Wire(a + b) == Wire(a) + Wire(b)
  {
    if a == [] {
      assert a + b == b;
    } else {
      assert (a + b)[1..] == a[1..] + b;
      WireConcat(a[1..], b);
    }
  }

  /** Halfway through a session: what was tried and what is still typed make it up, and some of what was tried was sent. */
  ghost predicate Underway(session: seq<string>, typed: string, tried: seq<string>, sent: seq<string>) {
    tried + Session(typed) == session && Thinned(sent, tried)
  }

  lemma Regrouped(tried: seq<string>, now: seq<string>, rest: seq<string>)
    ensures tried + (now + rest) == tried + now + rest
    ensures tried + now <= tried + now + rest && tried + now + [] == tried + now
  {
  }

  lemma UnderwayEnds(session: seq<string>, typed: string, tried: seq<string>, sent: seq<string>, now: seq<string>)
    requires Underway(session, typed, tried, sent) && (now == [] || now == ChunkText(typed))
    requires typed == [] || ChunkText(typed) == [DISCONNECT]
    ensures tried + ChunkText(typed) == session && Thinned(sent + now, session)
  {
    ThinnedMore(sent, tried, ChunkText(typed), now);
    if typed != [] {
      SessionStep(typed);
    }
    Regrouped(tried, ChunkText(typed), []);
  }

  lemma UnderwayGoesOn(session: seq<string>, typed: string, tried: seq<string>, sent: seq<string>, now: seq<string>)
    requires Underway(session, typed, tried, sent) && (now == [] || now == ChunkText(typed))
    requires typed != [] && ChunkText(typed) != [DISCONNECT]
    ensures Underway(session, NextChunk(typed, ROOM).1, tried + ChunkText(typed), sent + now)
  {
    ThinnedMore(sent, tried, ChunkText(typed), now);
    SessionStep(typed);
    Regrouped(tried, ChunkText(typed), Session(NextChunk(typed, ROOM).1));
  }

  lemma UnderwayTurn(session: seq<string>, typed: string, tried: seq<string>, sent: seq<string>, now: seq<string>)
    requires Underway(session, typed, tried, sent) && (now == [] || now == ChunkText(typed))
    ensures TurnCode(typed) == 1 ==> Underway(session, NextChunk(typed, ROOM).1, tried + ChunkText(typed), sent + now)
    ensures TurnCode(typed) != 1 ==> tried + ChunkText(typed) == session && Thinned(sent + now, session)
  {
    if TurnCode(typed) == 1 {
      UnderwayGoesOn(session, typed, tried, sent, now);
    } else {
      UnderwayEnds(session, typed, tried, sent, now);
    }
  }

  lemma WireStart(start: string, sent: seq<string>, now: seq<string>)
    ensures start + Wire(sent) + Wire(now) == start + Wire(sent + now)
  {
    WireConcat(sent, now);
    assert start + Wire(sent) + Wire(now) == start + (Wire(sent) + Wire(now));
  }

  /** One turn of the send loop: the next text of the session is tried. */
  method SendTurn(t: Terminal, out: array<char>, p: Pipe, ghost session: seq<string>, ghost tried: seq<string>,
                  ghost sent: seq<string>, ghost start: string, ghost patience: nat)
    returns (code: int, ghost more: seq<string>, ghost through: seq<string>)
    requires out.Length == MAX_RPC_BUF_LEN && Writable(p, patience) && Underway(session, t.typed, tried, sent)
    requires p.bytes == start + Wire(sent) && (Willing(p.answers) ==> sent == tried)
    modifies t, out, p`bytes, p`calls, p`last
    ensures p.bytes == start + Wire(through) && (Willing(p.answers) ==> through == more)
    ensures code == 1 ==> Underway(session, t.typed, more, through) && |t.typed| < |old(t.typed)|
    ensures code == -1 || code == 0 || code == 1
    ensures code != 1 ==> more == session && Thinned(through, session)
  {
    ghost var typed, now := t.typed, [];
    code, now := SendUserInput(t, out, p, patience);
    more, through := tried + ChunkText(typed), sent + now;
    WireStart(start, sent, now);
    UnderwayTurn(session, typed, tried, sent, now);
  }

  /**
   The client's send loop. What it tries are the session's texts, in order, up to the turn at which the connection
   is found closed; what reaches the wire are those of them whose write was accepted, each of them whole.
   */
  method SendLoop(t: Terminal, out: array<char>, p: Pipe, connected: nat -> bool, ghost patience: nat)
    returns (ghost tried: seq<string>, ghost sent: seq<string>)
    requires out.Length == MAX_RPC_BUF_LEN && Writable(p, patience)
    modifies t, out, p`bytes, p`calls, p`last
    ensures p.bytes == old(p.bytes) + Wire(sent)
    ensures tried <= Session(old(t.typed)) && Thinned(sent, tried)
    ensures Willing(p.answers) ==> sent == tried
    ensures (forall turn :: connected(turn)) ==> tried == Session(old(t.typed))
  {
    ghost var session := Session(t.typed);
    tried, sent := [], [];
    var turn := 0;
    while connected(turn)
      invariant Underway(session, t.typed, tried, sent)
      invariant p.bytes == old(p.bytes) + Wire(sent)
      invariant Willing(p.answers) ==> sent == tried
      decreases |t.typed|
    {
      var code;
      code, tried, sent := SendTurn(t, out, p, session, tried, sent, old(p.bytes), patience);
      if code == -1 {
        return;
      }
      if code == 0 {
        return;
      }
      turn := turn + 1;
    }
  }

  // ---------------------------------------------------------------- the server's side

  lemma {:induction false} ThinnedMembers(a: seq<string>, b: seq<string>, i: nat)
    requires Thinned(a, b) && i < |a|
    ensures a[i] in b
    decreases |b|
  {
    var b', n := b[..|b| - 1], |a| - 1;
    if a[n] == b[|b| - 1] && Thinned(a[..n], b') {
      if i < n {
        ThinnedMembers(a[..n], b', i);
        assert a[..n][i] in b';
      }
    } else {
      ThinnedMembers(a, b', i);
    }
  }

  /** What a send loop leaves on an empty wire is in step with a server that has read nothing: the two ends fit together. */
  lemma SentIsInStep(typed: string, tried: seq<string>, sent: seq<string>)
    requires tried <= Session(typed) && Thinned(sent, tried)
    ensures InStep(sent, [], Wire(sent))
  {
    SessionSendable(typed);
    forall i | 0 <= i < |sent| ensures Sendable(sent[i]) {
      ThinnedMembers(sent, tried, i);
    }
    assert sent[0..] == sent;
  }

  /** Whatever is taken from a wire in step, in one read, is the next text sent. */
  lemma TakenIsNext(sent: seq<string>, received: seq<string>, wire: string)
    requires InStep(sent, received, wire) && TakeRecord(wire, '\n', ROOM).Some?
    ensures var (text, rest) := TakeRecord(wire, '\n', ROOM).value;
            InStep(sent, received + [text], rest)
  {
    ReceiveKeepsStep(sent, received, wire);
  }
}
