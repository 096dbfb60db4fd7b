/** The reply line: formatted by the server's main loop, read back by the client's receiver thread. */
module ReplyCodec {
  import opened Common
  import opened Whitespace
  import opened Fifo
  import opened Transport

  /** The three result values of a task; INT_MIN marks one that is absent. */
  datatype Triple = Triple(a: int, b: int, c: int)

  predicate IsInt(n: int) {
    INT_MIN <= n <= INT_MAX
  }

  predicate InRange(t: Triple) {
    IsInt(t.a) && IsInt(t.b) && IsInt(t.c)
  }

  // ---------------------------------------------------------------- printing

  function Digit(d: nat): char
    requires d < 10
  {
    ('0' as int + d) as char
  }

  function Digits(n: nat): string {
    if n < 10 then [Digit(n)] else Digits(n / 10) + [Digit(n % 10)]
  }

  /** printf's %d. */
  function Decimal(n: int): string {
    if n < 0 then ['-'] + Digits(-n) else Digits(n)
  }

  /** The values a reply carries: three, two or one, by which sentinels are set. */
  function Present(t: Triple): seq<int> {
    if t.c != INT_MIN then [t.a, t.b, t.c] else if t.b != INT_MIN then [t.a, t.b] else [t.a]
  }

  /** The line the RPC_DONE handler formats. */
  function Reply(t: Triple): string {
    if t.c != INT_MIN then Decimal(t.a) + [' '] + Decimal(t.b) + [' '] + Decimal(t.c) + ['\n']
    else if t.b != INT_MIN then Decimal(t.a) + [' '] + Decimal(t.b) + ['\n']
    else Decimal(t.a) + ['\n']
  }

  // ---------------------------------------------------------------- scanning

  predicate IsDigit(c: char) {
    '0' as int <= c as int <= '9' as int
  }

  function Value(c: char): nat
    requires IsDigit(c)
  {
    c as int - '0' as int
  }

  function SkipSpace(s: string): (r: string)
    ensures |r| <= |s|
  {
    if s != [] && IsSpace(s[0]) then SkipSpace(s[1..]) else s
  }

  /** The digits at the front of s appended to the number read so far. */
  function ScanDigits(s: string, soFar: nat): (r: (nat, string))
    ensures |r.1| <= |s|
  {
    if s != [] && IsDigit(s[0]) then ScanDigits(s[1..], 10 * soFar + Value(s[0])) else (soFar, s)
  }

  /** scanf's %d: optional whitespace, an optional sign, and at least one digit. */
  function ScanInt(s: string): (r: Option<(int, string)>)
    ensures r.Some? ==> |r.value.1| < |s|
  {
    var t := SkipSpace(s);
    var signed := t != [] && (t[0] == '-' || t[0] == '+');
    var u := if signed then t[1..] else t;
    if u == [] || !IsDigit(u[0]) then None
    else
      var (n: int, rest) := ScanDigits(u[1..], Value(u[0]));
      Some((if signed && t[0] == '-' then -n else n, rest))
  }

  /** sscanf with max conversions: the values read before the first one that fails. */
  function Scan(s: string, max: nat): seq<int>
    decreases max
  {
    if max == 0 then []
    else match ScanInt(s)
      case None => []
      case Some((n, rest)) => [n] + Scan(rest, max - 1)
  }

  /** The triple behind the values read, absent ones put back as INT_MIN. */
  function Recovered(fields: seq<int>): Option<Triple> {
    if |fields| == 3 then Some(Triple(fields[0], fields[1], fields[2]))
    else if |fields| == 2 then Some(Triple(fields[0], fields[1], INT_MIN))
    else if |fields| == 1 then Some(Triple(fields[0], INT_MIN, INT_MIN))
    else None
  }

  // ---------------------------------------------------------------- scanning undoes printing

  lemma {:induction false} DigitsAreDigits(n: nat)
    ensures Digits(n) != [] && forall i :: 0 <= i < |Digits(n)| ==> IsDigit(Digits(n)[i])
  {
    if n >= 10 {
      DigitsAreDigits(n / 10);
    }
  }

  lemma {:induction false} ScanUndoesDigits(n: nat, rest: string)
    ensures ScanDigits(Digits(n) + rest, 0) == ScanDigits(rest, n)
  {
    if n < 10 {
      assert (Digits(n) + rest)[1..] == rest;
    } else {
      var d := [Digit(n % 10)];
      assert Digits(n) + rest == Digits(n / 10) + (d + rest);
      ScanUndoesDigits(n / 10, d + rest);
      assert (d + rest)[1..] == rest;
    }
  }

  lemma DecimalIsWord(n: int)
    ensures IsWord(Decimal(n))
  {
    DigitsAreDigits(if n < 0 then -n else n);
  }

  /** %d reads back what %d printed, up to the character after it. */
  lemma ScanUndoesDecimal(n: int, rest: string)
    requires rest == [] || !IsDigit(rest[0])
    ensures ScanInt(Decimal(n) + rest) == Some((n, rest))
  {
    var m: nat := if n < 0 then -n else n;
    DigitsAreDigits(m);
    ScanUndoesDigits(m, rest);
    var u := Digits(m) + rest;
    assert ScanDigits(u, 0) == ScanDigits(u[1..], Value(u[0]));
    assert ScanDigits(rest, m) == (m, rest);
    if n < 0 {
      assert Decimal(n) + rest == ['-'] + u;
      assert (['-'] + u)[1..] == u;
    }
  }

  lemma ScanSpace(s: string)
    ensures ScanInt([' '] + s) == ScanInt(s)
  {
    assert ([' '] + s)[1..] == s;
  }

  function Texts(values: seq<int>): seq<string> {
    if values == [] then [] else [Decimal(values[0])] + Texts(values[1..])
  }

  lemma {:induction false} TextsAreWords(values: seq<int>)
    ensures AllWords(Texts(values)) && |Texts(values)| == |values|
  {
    if values != [] {
      DecimalIsWord(values[0]);
      TextsAreWords(values[1..]);
    }
  }

  /** Scanning a printed value and what follows it. */
  lemma ScanCons(n: int, rest: string, max: nat)
    requires max > 0 && (rest == [] || !IsDigit(rest[0]))
    ensures Scan(Decimal(n) + rest, max) == [n] + Scan(rest, max - 1)
    ensures Scan([' '] + (Decimal(n) + rest), max) == [n] + Scan(rest, max - 1)
  {
    ScanUndoesDecimal(n, rest);
    ScanSpace(Decimal(n) + rest);
  }

  lemma ScanBlank(max: nat)
    ensures Scan([], max) == [] && Scan([' '] + [], max) == []
  {
    assert ([' '] + [])[1..] == [];
    assert SkipSpace([' '] + []) == SkipSpace([]) == [];
  }

  /** Scanning undoes printing any number of values separated by single spaces. */
  lemma {:induction false} ScanUndoesJoin(values: seq<int>, max: nat)
    requires |values| <= max
    ensures Scan(Joined(Texts(values)), max) == values
    ensures Scan([' '] + Joined(Texts(values)), max) == values
    decreases max
  {
    if values == [] {
      ScanBlank(max);
    } else {
      ScanUndoesJoin(values[1..], max - 1);
      ScanJoinedCons(values[0], values[1..], max);
      assert [values[0]] + values[1..] == values;
    }
  }

  lemma ScanJoinedCons(n: int, values: seq<int>, max: nat)
    requires max > 0 && Scan([' '] + Joined(Texts(values)), max - 1) == values
    ensures Scan(Joined(Texts([n] + values)), max) == [n] + values
    ensures Scan([' '] + Joined(Texts([n] + values)), max) == [n] + values
  {
    JoinedTexts(n, values);
    ScanBlank(max - 1);
    ScanCons(n, if values == [] then [] else [' '] + Joined(Texts(values)), max);
  }

  lemma JoinedTexts(n: int, values: seq<int>)
    ensures Joined(Texts([n] + values)) == Decimal(n) + if values == [] then [] else [' '] + Joined(Texts(values))
  {
    TextsCons(n, values);
    JoinedCons(Decimal(n), Texts(values));
    if values == [] {
      assert Texts([]) == [] && Decimal(n) + [] == Decimal(n);
    } else {
      assert Decimal(n) + ([' '] + Joined(Texts(values))) == Decimal(n) + [' '] + Joined(Texts(values));
    }
  }

  lemma DecimalHasNoNul(n: int)
    ensures '\0' !in Decimal(n)
  {
    var m: nat := if n < 0 then -n else n;
    DigitsAreDigits(m);
    assert !IsDigit('\0');
    assert '\0' !in Digits(m);
  }

  lemma {:induction false} TextsHaveNoNul(values: seq<int>)
    ensures '\0' !in Joined(Texts(values))
  {
    if values != [] {
      DecimalHasNoNul(values[0]);
      TextsHaveNoNul(values[1..]);
      JoinedCons(Decimal(values[0]), Texts(values[1..]));
    }
  }

  lemma JoinedCons(w: string, ws: seq<string>)
    ensures Joined([w] + ws) == if ws == [] then w else w + [' '] + Joined(ws)
  {
    assert ([w] + ws)[1..] == ws;
  }

  lemma TextsCons(v: int, vs: seq<int>)
    ensures Texts([v] + vs) == [Decimal(v)] + Texts(vs)
  {
    assert ([v] + vs)[1..] == vs;
  }

  lemma TextsOfPresent(t: Triple)
    ensures Reply(t) == Joined(Texts(Present(t))) + ['\n']
  {
    var a, b, c := Decimal(t.a), Decimal(t.b), Decimal(t.c);
    TextsCons(t.a, []);
    TextsCons(t.b, []);
    TextsCons(t.c, []);
    TextsCons(t.a, [t.b]);
    TextsCons(t.b, [t.c]);
    TextsCons(t.a, [t.b, t.c]);
    assert Present(t) == (if t.c != INT_MIN then [t.a] + [t.b, t.c] else if t.b != INT_MIN then [t.a] + [t.b] else [t.a] + []);
    assert [t.b, t.c] == [t.b] + [t.c] && [t.b] + [] == [t.b] && [t.c] + [] == [t.c];
    JoinedThree(a, b, c);
  }

  lemma JoinedThree(a: string, b: string, c: string)
    ensures Joined([a] + []) == a
    ensures Joined([a] + ([b] + [])) == a + [' '] + b
    ensures Joined([a] + ([b] + ([c] + []))) == a + [' '] + b + [' '] + c
  {
    JoinedCons(a, []);
    JoinedCons(a, [b] + []);
    JoinedCons(b, []);
    JoinedCons(c, []);
    JoinedCons(b, [c] + []);
    JoinedCons(a, [b] + ([c] + []));
    assert a + [' '] + (b + [' '] + c) == a + [' '] + b + [' '] + c;
  }

  /** The reply is its present values, joined by single spaces, and a newline: a sendable text that cleaning keeps. */
  lemma ReplyShape(t: Triple)
    ensures Reply(t) == Joined(Texts(Present(t))) + ['\n']
    ensures Clean(Joined(Texts(Present(t)))) == Joined(Texts(Present(t)))
    ensures '\n' !in Joined(Texts(Present(t))) && '\0' !in Joined(Texts(Present(t)))
  {
    var vs := Present(t);
    TextsOfPresent(t);
    TextsAreWords(vs);
    WordsOfJoined(Texts(vs));
    JoinedIsTidy(Texts(vs));
    TidyHasNoNewline(Joined(Texts(vs)));
    TextsHaveNoNul(vs);
  }

  // ---------------------------------------------------------------- sizes

  function Pow10(k: nat): nat {
    if k == 0 then 1 else 10 * Pow10(k - 1)
  }

  lemma {:induction false} DigitsLength(n: nat, k: nat)
    requires k > 0 && n < Pow10(k)
    ensures |Digits(n)| <= k
  {
    if n >= 10 {
      assert Pow10(1) == 10;
      DigitsLength(n / 10, k - 1);
    }
  }

  lemma DecimalLength(n: int)
    requires IsInt(n)
    ensures |Decimal(n)| <= 11
  {
    assert Pow10(5) == 100000;
    assert Pow10(10) == 10000000000;
    DigitsLength(if n < 0 then -n else n, 10);
  }

  /** A reply with its terminating NUL always fits the buffer, so snprintf cuts nothing off. */
  lemma ReplyFits(t: Triple)
    requires InRange(t)
    ensures |Reply(t)| <= 36 && |Reply(t)| + 1 <= MAX_RPC_BUF_LEN
  {
    DecimalLength(t.a);
    DecimalLength(t.b);
    DecimalLength(t.c);
  }

  // ---------------------------------------------------------------- the round trip

  /** Whatever follows it on the wire, a reply is read as one record, and its values come back as they were. */
  lemma ReplyRoundTrip(t: Triple, rest: string)
    requires InRange(t)
    ensures TakeRecord(Reply(t) + rest, '\n', ROOM).Some?
    ensures var (record, left) := TakeRecord(Reply(t) + rest, '\n', ROOM).value;
            && left == rest && '\0' !in record
            && Scan(Clean(CString(record)), 3) == Present(t)
            && Recovered(Scan(Clean(CString(record)), 3)) == Some(t)
  {
    var text := Joined(Texts(Present(t)));
    ReplyShape(t);
    ReplyFits(t);
    TakeRecordShort(text, '\n', rest, ROOM);
    CStringNoNul(text);
    ScanUndoesJoin(Present(t), 3);
  }

  /** The bytes of a sequence of replies. */
  function Replies(ts: seq<Triple>): string {
    if ts == [] then [] else Reply(ts[0]) + Replies(ts[1..])
  }

  /** What the receiver reads from a wire, reply by reply. */
  function Received(wire: string): seq<seq<int>>
    decreases |wire|
  {
    match TakeRecord(wire, '\n', ROOM)
    case None => []
    case Some((record, rest)) =>
      if |rest| < |wire| then [Scan(Clean(CString(record)), 3)] + Received(rest) else []
  }

  /** Any sequence of replies is received as that sequence of results, none merged, split or misread. */
  lemma {:induction false} RepliesRoundTrip(ts: seq<Triple>)
    requires forall i :: 0 <= i < |ts| ==> InRange(ts[i])
    ensures |Received(Replies(ts))| == |ts|
    ensures forall i :: 0 <= i < |ts| ==> Received(Replies(ts))[i] == Present(ts[i]) && Recovered(Received(Replies(ts))[i]) == Some(ts[i])
  {
    if ts != [] {
      ReplyRoundTrip(ts[0], Replies(ts[1..]));
      RepliesRoundTrip(ts[1..]);
      var tail := Received(Replies(ts[1..]));
      assert Received(Replies(ts)) == [Present(ts[0])] + tail;
      forall i | 0 <= i < |ts| ensures Received(Replies(ts))[i] == Present(ts[i]) && Recovered(Received(Replies(ts))[i]) == Some(ts[i]) {
        if i > 0 {
          assert tail[i - 1] == Present(ts[1..][i - 1]);
        }
      }
    }
  }

  // ---------------------------------------------------------------- the receiver

  /** What the client prints for a reply. */
  datatype Message =
    | RpcFailed
    | ValueError
    | InternalError
    | Success
    | SuccessWith(n: int)
    | DataWriteFailed
    | MovieWriteFailed
    | Numbers(values: seq<int>)
    | Silence

  /** The message for the values that were scanned. */
  function Printed(fields: seq<int>): Message {
    if |fields| == 1 then
      (match fields[0]
       case -1 => RpcFailed
       case -2 => ValueError
       case -3 => InternalError
       case 0 => Success
       case _ => Numbers(fields))
    else if |fields| == 2 then
      if fields[0] == 0 && fields[1] == -1 then DataWriteFailed
      else if fields[0] == 0 then SuccessWith(fields[1])
      else Numbers(fields)
    else if |fields| == 3 then
      if fields[0] == 0 && fields[1] == 0 && fields[2] == -1 then MovieWriteFailed
      else if fields[0] == 0 && fields[1] == 0 && fields[2] == 0 then Success
      else Numbers(fields)
    else Silence
  }

  /** recv_server_reply: false when the connection is gone; what is printed when a whole reply was there. */
  method RecvServerReply(p: Pipe, out: array<char>, ghost patience: nat) returns (alive: bool, said: Option<Message>)
    requires Patient(p.answers, patience) && out.Length == MAX_RPC_BUF_LEN
    modifies p`bytes, p`calls, p`last, out
    ensures said.Some? ==> alive && TakeRecord(old(p.bytes), '\n', ROOM).Some?
                           && p.bytes == TakeRecord(old(p.bytes), '\n', ROOM).value.1
                           && said.value == Printed(Scan(Clean(CString(TakeRecord(old(p.bytes), '\n', ROOM).value.0)), 3))
    ensures said == None ==> p.calls > old(p.calls) && (alive <==> p.last == Failed(EAGAIN))
    ensures Prompt(p.answers) ==> (said.Some? <==> TakeRecord(old(p.bytes), '\n', ROOM).Some?)
  {
    var err, len := ReadUntilDelim(p, out, MAX_RPC_BUF_LEN, '\n', patience);
    if err == PIPE_EMPTY {
      return true, None;
    }
    if err == PIPE_CLOSED || err == PIPE_READ_FAIL {
      return false, None;
    }
    assert out[..][len] == '\0';
    CStringOfPrefix(out[..], out[..len]);
    SanitiseWhitespace(out);
    var text := Text(out);
    return true, Some(Printed(Scan(text, 3)));
  }
}
